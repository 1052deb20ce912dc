# Verification of the SICK scan driver's data paths

This project models how the driver (namespace `sick_scan_xd`) gets from bytes to measurements, and proves what
each path promises for all inputs:

- **SOPAS streams.** `ColaFraming` is the read callback of the TCP connection as functions on byte strings,
  `ColaReceiver` the same on the driver's fixed array. `ColaStreams` (CoLa-A) and `ColaBStreams`, `ColaBResync`
  (CoLa-B) prove that the split of the TCP stream into reads is not observable, and exactly when it is;
  `ColaBReject` says what a damaged frame costs. `SopasRequest` builds binary commands, `SopasReaders` connects the
  writer with every reader of a frame.
- **Telegram codecs.** `Fields` holds big-endian fields, appended and read with bounds checks. On it stand the
  NAV350 position data (`Nav350`, `Nav350Telegram`, `Nav350Driver`, `Nav350Layout`), the LIDoutputstate and LFErec
  messages (`OutputStates`, `FieldEvaluation`, `Timestamps`, `MessageLayout`), the LMDscandata parser with its pre-scan
  and two passes (`LmdTelegram`, `LmdWalk`, `LmdParser`, `LmdValues`), the radar field splitter with the keyword search
  (`RadarFields`, `RadarSearch`, `RadarRows`) and the radar emulator with its parser (`RadarText`, `RadarEmulator`,
  `RadarParser`). Writers and readers are proved to fit each other, and the layout they share is also stated in raw
  bytes (`Nav350Layout`, `MessageLayout`, `LmdValues`).
- **Geometry and layout.** `Rotation` and `CloudTransform` are the pose transform and its azimuth shortcut over the
  reals, `PointCloud` the cell addresses of `loopOnce`, `TriangleFan` the field markers, `NumberText` the
  number printer and scanner.

`Bytes`, `Arithmetic` and `Wrappers` hold what they share. Where the driver changes an array or an object step by
step there is a class or a method with loops, proved against a specification function; the lemmas are about that
function. Floats are kept as the words they are on the wire, and are real numbers where they are scaled.

## What the code does beyond its documentation

The model follows the code. These are places where a property holds only under a condition, which is proved exactly:

- A CoLa-B frame of more than 65536 bytes never leaves the checksum loop, because its counter has 16 bits
  (`ColaBStreams.DeliveredExactly`, `ColaFraming.ChecksumLoopEnds`). The outcome `Spin` stands for the callback that
  does not return. The magic word is searched below position 65536 only.
- A read that ends inside the magic word behind garbage can lose frames (`ColaBResync.ResyncExactly`).
- A frame of wrong checksum is given up together with everything read behind it (`ColaBReject.RejectionCostsOneRead`).
- An empty read clears pending bytes, and a read beyond the buffer is cut (`ColaStreams.FittingIsExact`).
- The sender cuts the frame length to 16 bits (`SopasReaders.SentExactly`), and the answer check does not look at the
  checksum.
- The LMDscandata passes read counts as signed shorts and stop at an unknown name, the pre-scan does neither
  (`LmdWalk.WalkIsExact`, `LmdWalk.WalkAgreesWithPreScan`). A count of 0x8000 or more makes the parser throw or leave
  the buffer (`LmdWalk.LongCountEndsThePass`). Its arrays are sized by the last count
  (`LmdParser.WritesInsideExactly`), and it reads 8-bit distances and elevation angles in pairs of bytes.
  `LmdParser.OutcomeExactly` says of every receivable telegram how the parser ends.
- Amplitude, mode and identifier of an emulated radar list are rounded once more by cutting, and two digits carry no
  sign (`RadarParser.TargetRecovered`, `RadarParser.ObjectRecovered`).
- A LIDoutputstate parameter block of 9 or 14 bytes makes the number of states negative, which `reserve` answers
  with an exception (`OutputStates.ParseLIDoutputstateMsg`).
- The azimuth shortcut drops roll and pitch below the float epsilon (`CloudTransform.ShortcutIsExact`).
- Some invalid echoes and several layers together make rows overrun (`PointCloud.AllCellsInside`), the cloud is cut to
  what the last layer kept (`PointCloud.NothingLostExactly`), cells behind the kept points of a row are those of earlier
  telegrams (`PointCloud.OnlyNewExactly`), and ranges are read by position while intensities are read
  by echo index (`PointCloud.RangeMatchesIntensity`).
- Numbers printed with blanks or with zeros on the right are not read back (`NumberText.PrintedReadBack`), nor raw bytes
  that start like whitespace (`NumberText.BytesReadBack`).

## Model

| member | source | states |
|---|---|---|
| ColaReceiver.TcpReceiver.ReadCallback | driver/src/sick_scan_common_tcp.cpp:527-595 | One call of the read callback on the fixed array: the new log, buffer and spinning flag are those of the pure read step, the accepted bytes grow by exactly what fits, and the receiver invariant (queue = frames of the log, accepted = log followed by buffer, all queued frames valid) is kept |
| ColaReceiver.TcpReceiver.DrainBuffer | driver/src/sick_scan_common_tcp.cpp:556-585 | The loop of the callback drains the array to exactly what the recursive drain leaves; it ends because every frame removes bytes |
| ColaReceiver.TcpReceiver.DrainRound | driver/src/sick_scan_common_tcp.cpp:559-584 | One round: search, hand over the frame, shift the array; every byte leaving the buffer is logged as discarded or as part of a frame |
| ColaReceiver.TcpReceiver.FindFrameA | driver/src/sick_scan_common_tcp.cpp:329-380 | CoLa-A search in place: garbage before STX is given up, the frame ends at the first ETX behind it |
| ColaReceiver.TcpReceiver.FindMagicWord | driver/src/sick_scan_common_tcp.cpp:392-410 | The search for the magic word with a 16-bit position: the first occurrence below 65536, else the buffer length |
| ColaReceiver.TcpReceiver.FindFrameB | driver/src/sick_scan_common_tcp.cpp:381-434 | CoLa-B resynchronisation in place |
| ColaReceiver.TcpReceiver.FindFrameAligned | driver/src/sick_scan_common_tcp.cpp:436-487 | Length and checksum decisions behind a magic word, with the error exits that clear the buffer |
| ColaReceiver.TcpReceiver.XorOfPayload | driver/src/sick_scan_common_tcp.cpp:466-477 | The checksum loop computes the XOR of the payload for frames its 16-bit counter can reach |
| ColaReceiver.TcpReceiver.ProcessFrame | driver/src/sick_scan_common_tcp.cpp:500-525 | A frame is appended to the queue |
| ColaReceiver.GetIntegerFromBuffer | include/sick_scan/tcp/colab.hpp:124-140 | The shift-and-add loop is big-endian decoding |
| ColaFraming.IndexFromIsFirst | driver/src/sick_scan_common_tcp.cpp:330-365 | The STX and ETX loops find the first occurrence |
| ColaFraming.MagicFromIsFirst | driver/src/sick_scan_common_tcp.cpp:395-406 | The magic word found is the first one within reach of a 16-bit position |
| ColaFraming.FindSound | driver/src/sick_scan_common_tcp.cpp:322-491 | Whatever the bytes, a frame that is found is valid: STX..ETX without inner ETX; or magic word, matching length, matching XOR |
| ColaFraming.DrainConserves | driver/src/sick_scan_common_tcp.cpp:556-585 | Draining loses, duplicates and reorders nothing: log followed by rest is the input |
| ColaFraming.DrainValid | driver/src/sick_scan_common_tcp.cpp:556-585 | Only valid frames are emitted |
| ColaFraming.RunConserves | driver/src/sick_scan_common_tcp.cpp:527-595 | Over every run of reads, any bytes, any split, any buffer size: the accepted stream is the logged segments followed by the buffer, so queued frames are disjoint slices of it in increasing order, and each is valid |
| ColaFraming.ChecksumLoopEnds | driver/src/sick_scan_common_tcp.cpp:472-477 | The 16-bit checksum counter reaches its bound if and only if the frame has at most 65536 bytes |
| ColaStreams.DrainRefinesFeed | driver/src/sick_scan_common_tcp.cpp:329-380 | Draining a buffer equals a byte-at-a-time decoder that skips to STX and takes to ETX |
| ColaStreams.ReadRefinesFeed | driver/src/sick_scan_common_tcp.cpp:527-595 | One fitting read on top of what is pending equals feeding its bytes to the decoder |
| ColaStreams.ChunkingUnobservable | driver/src/sick_scan_common_tcp.cpp:527-595 | CoLa-A: for every stream, garbage included, and every split into fitting reads, queue and rest are those of the decoder run once on the whole stream |
| ColaStreams.FittingIsExact | driver/src/sick_scan_common_tcp.cpp:536-543 | The side condition is exact: reads of n bytes agree with the decoder for all contents if and only if they are nonempty and fit, or are empty on an empty buffer |
| ColaStreams.EmptyReadClears | driver/src/sick_scan_common_tcp.cpp:588-594 | An empty read agrees with the decoder exactly when nothing is pending, because it clears the buffer |
| ColaStreams.TruncatedReadDiffers | driver/src/sick_scan_common_tcp.cpp:536-543 | A truncated read whose last byte is cut off differs from the decoder |
| ColaBStreams.DrainStream | driver/src/sick_scan_common_tcp.cpp:381-487 | Draining a prefix of a stream of frames, of which the last may be one that will be rejected, emits exactly its complete frames and keeps the unfinished one |
| ColaBStreams.Reassembly | driver/src/sick_scan_common_tcp.cpp:527-595 | CoLa-B: for every list of frames and every split of any prefix of their stream into fitting reads, after every read exactly the complete frames are queued, once each and in order, and the buffer holds exactly the unfinished one; the last frame may be one that will be rejected, as long as it is incomplete |
| ColaBStreams.WholeStream | driver/src/sick_scan_common_tcp.cpp:527-595 | The whole stream, however split, gives exactly its frames and nothing left over |
| ColaBStreams.DriverReadsFit | driver/src/tcp/tcp.cpp:260-280 | With the 480000-byte buffer and reads of at most 8192 bytes no read of a frame stream is ever truncated |
| ColaBStreams.DeliveredExactly | driver/src/sick_scan_common_tcp.cpp:466-477 | A well-formed frame that fits the buffer is delivered, for every split into fitting reads, if and only if it has at most 65536 bytes; a longer one catches the callback in its checksum loop |
| ColaBReject.RejectedRead | driver/src/sick_scan_common_tcp.cpp:436-487 | As soon as the buffer starts with a complete frame of wrong checksum, or with nine bytes whose length is beyond the buffer, the read that made it so queues nothing and leaves an empty buffer |
| ColaBReject.RejectionCostsOneRead | driver/src/sick_scan_common_tcp.cpp:527-595 | For every stream, every rejected frame in it and every split into fitting reads: the frames before it are delivered, what the completing read holds behind it is lost, and the stream that starts with the next read is reassembled completely |
| ColaBReject.ChangedByteRejected | driver/src/sick_scan_common_tcp.cpp:466-484 | A deliverable frame with any one byte of its payload, or its checksum, changed is rejected |
| ColaBResync.ResyncExactly | driver/src/sick_scan_common_tcp.cpp:392-433 | Frames behind garbage, split into any fitting reads, are all recovered if and only if no read that ends inside the first magic word leaves four or more bytes in the buffer |
| ColaBResync.TwoReadsKeep | driver/src/sick_scan_common_tcp.cpp:408-414 | For two reads: the frames are lost exactly if the first read has at least four bytes and ends inside the magic word |
| ColaBResync.BrokenMagicLoses | driver/src/sick_scan_common_tcp.cpp:408-414 | After a read that breaks the magic word, frames and buffer together stay behind the bytes of the stream for good |
| SopasRequest.RequestBuffer.SetLengthAndCrc | driver/src/sick_scan_common.cpp:5914-5926 | Patching length and checksum turns preamble, placeholder and payload into the frame of the payload |
| SopasRequest.RequestBuffer.ConvertAscii2BinaryCmd | driver/src/sick_scan_common.cpp:5348-5379 | A text command is accepted exactly when it is STX..ETX, and becomes the frame of its converted payload |
| SopasRequest.RequestBuffer.CopyBaseCommand | driver/src/sick_scan_common.cpp:5872-5902 | The copy loop appends the command and name, and then digits as values or stops for packed arguments |
| SopasRequest.HeadBySpaces | driver/src/sick_scan_common.cpp:5872-5902 | A byte is copied literally exactly while fewer spaces than the limit precede it |
| SopasRequest.ConvertedBytes | driver/src/sick_scan_common.cpp:5872-5909 | The payload of a converted command byte by byte: the text up to and including its second space, then the packed arguments, or without any the rest of the text with every digit replaced by its number |
| SopasRequest.Crc8 | driver/src/sick_scan_common.cpp:219-230 | The checksum loop is the XOR of all bytes |
| Bytes.ChecksumParity | driver/src/sick_scan_common.cpp:219-230 | Each bit of the checksum is the parity of that bit over all bytes |
| Bytes.OneByteSeen | driver/src/sick_scan_common.cpp:219-230 | A change of one byte always changes the checksum |
| SopasRequest.FrameBWellFormed | driver/src/sick_scan_common.cpp:5914-5926 | What the writer builds is what the receiver calls a well-formed frame |
| SopasRequest.WellFormedIsFrameB | driver/src/sick_scan_common.cpp:5914-5926 | Conversely every well-formed frame is what the writer builds for its payload |
| SopasReaders.BigEndianToUnsigned | driver/src/sick_scan_common.cpp:760-769 | Four bytes shifted together are their big-endian value |
| SopasReaders.CheckForBinaryAnswer | driver/src/sick_scan_common.cpp:777-807 | The answer check returns the payload length exactly for replies with preamble and a matching length field, also where its 32-bit comparison wraps around |
| SopasReaders.MessageLength | driver/src/sick_scan_common_tcp.cpp:717-747 | The sender decodes the length field; the result is cut to 16 bits on its way to the socket |
| SopasReaders.SentExactly | driver/src/sick_scan_common_tcp.cpp:717-747 | The sender hands over exactly the frame if and only if the frame is shorter than 65536 bytes |
| SopasReaders.LongFrameNotSent | driver/src/sick_scan_common_tcp.cpp:717-747 | Of the frame of a payload of 65527 bytes nothing is sent |
| SopasReaders.PayloadViewIsExact | driver/src/sick_scan_common_nw.cpp:578-641 | The payload view of every valid frame is the frame without its markers |
| SopasReaders.ReadersAgree | driver/src/sick_scan_common.cpp:777-807 | One writer, many readers: for every payload and every fitting split of its frame, answer check, stream framer and payload view agree that it is one frame with that payload and nothing left over |
| SopasReaders.FrameBInjective | driver/src/sick_scan_common.cpp:5914-5926 | Two payloads never share a frame |
| Bytes.SwapEndian | driver/src/sick_scan_common.cpp:123-133 | The in-place swap reverses the bytes of a value |
| Bytes.LeReversed | driver/src/sick_scan_common.cpp:123-133 | Reading swapped bytes on a little-endian host gives their big-endian value |
| Fields.AppendToBuffer | driver/src/sick_nav_scandata_parser.cpp:68-76 | Appending a value appends its big-endian bytes |
| Fields.ReadFromBuffer | driver/src/sick_nav_scandata_parser.cpp:78-92 | A read that fits returns the big-endian value and advances; one that does not fit leaves position and value and fails |
| Fields.ReadChain | driver/src/sick_scan_messages.cpp:65-77 | A chain of reads stops at the first field that does not fit |
| Fields.GetPut | driver/src/sick_nav_scandata_parser.cpp:68-92 | Reading where fields were appended returns them |
| Fields.PutGet | driver/src/sick_nav_scandata_parser.cpp:68-92 | What a successful read returns is what stands in the buffer |
| Nav350Driver.WriteNAV350BinaryPositionData | driver/src/sick_nav_scandata_parser.cpp:95-197 | The writer produces header, command, length, all sections with their optional parts, and checksum |
| Nav350Driver.ParseNAV350BinaryPositionData | driver/src/sick_nav_scandata_parser.cpp:344-463 | The parser returns exactly the success flag and the data set of the reader specification |
| Nav350Driver.ParseNAV350BinaryLandmarkData | driver/src/sick_nav_scandata_parser.cpp:301-338 | The reflector list is read with three optional parts per reflector |
| Nav350Driver.UnittestHolds | driver/src/sick_nav_scandata_parser.cpp:200-298 | The identity the unit test checks for one data set holds for every data set with five-byte tags |
| Nav350Telegram.RoundTrip | driver/src/sick_nav_scandata_parser.cpp:95-197 | For every data set whose counts fit its vectors: parsing the serialised telegram returns it, with everything behind zero flags reset, if and only if all written content tags have five bytes |
| Nav350Telegram.ReserializeIdentical | driver/src/sick_nav_scandata_parser.cpp:200-298 | Re-serialising the parsed data set gives the identical telegram |
| Nav350Telegram.SerializeNorm | driver/src/sick_nav_scandata_parser.cpp:95-197 | What the parser resets is not written: normalising is idempotent and keeps the telegram |
| Nav350Telegram.ParseSound | driver/src/sick_nav_scandata_parser.cpp:344-463 | Whatever telegram is accepted, its bytes behind the command are the serialised form of the data set returned |
| Nav350Layout.AcceptedLayout | driver/src/sick_nav_scandata_parser.cpp:344-463 | Of every accepted telegram, by byte position: status fields from byte 25, pose from byte 32 with x before y, then landmarks, scan channels and remission, every record with its fields at fixed offsets and signed numbers in two's complement |
| Nav350Layout.WrittenLayout | driver/src/sick_nav_scandata_parser.cpp:95-197 | Of every written telegram: magic word, size of the payload, command, and the data set at the same byte positions |
| Nav350.PutGetReflectors | driver/src/sick_nav_scandata_parser.cpp:301-338 | A reflector list that is read stands in the buffer exactly |
| Nav350.GetPutChannels | driver/src/sick_nav_scandata_parser.cpp:400-440 | Scan data channels are read back as written |
| LmdParser.ParseCommonBinaryResultTelegram | driver/src/sick_lmd_scandata_parser.cpp:246-680 | For every telegram of which the parser gets to its end or throws, different counts and 8-bit DIST channels included: it throws exactly if a walked count is 0x8000 or more, with the buffer as received; else the arrays hold what the k-th DIST or RSSI channel writes behind k blocks of its own size, on top of what resize left, the tables hold the last VANG and ANGL channel, and the buffer is as received with the samples of the walked 16-bit channels swapped |
| LmdWalk.PreScan | driver/src/sick_lmd_scandata_parser.cpp:282-296 | On any bytes: the pre-scan jumps from header to header by unsigned counts and returns the number standing where it lands |
| LmdWalk.PreScanFinds | driver/src/sick_lmd_scandata_parser.cpp:282-296 | For every telegram, whatever its counts, that number is the number of 8-bit channels |
| LmdWalk.CountPass | driver/src/sick_lmd_scandata_parser.cpp:382-470 | On any bytes that keep it inside the buffer: the first pass throws exactly if the round it ends in resizes a table of angles to a negative count; else it counts the channels of each kind up to the first unknown name, reading names and signed counts at its own position |
| LmdWalk.WalkIsExact | driver/src/sick_lmd_scandata_parser.cpp:382-470 | A pass reads the header of every walked channel, and of the one behind them, where the layout has it, if and only if no walked channel that another follows has a count of 0x8000 or more |
| LmdWalk.LongCountEndsThePass | driver/src/sick_lmd_scandata_parser.cpp:419-460 | For every receivable telegram with such a count: at the first such channel the pass throws if it is a table of angles, else jumps in front of the buffer if another channel follows, else ends with a negative count |
| LmdWalk.WalkAgreesWithPreScan | driver/src/sick_lmd_scandata_parser.cpp:285-296 | A pass finds the 16-bit headers and the number of 8-bit channels where the pre-scan found them, if and only if all names of 16-bit channels are known and none of their counts is 0x8000 or more |
| LmdWalk.UnknownNameStops | driver/src/sick_lmd_scandata_parser.cpp:382-412 | A receivable telegram with an unknown 16-bit name: the pass never reaches its 8-bit channel |
| LmdWalk.LongChannelTurnsBack | driver/src/sick_lmd_scandata_parser.cpp:446-460 | A receivable telegram with an RSSI channel of 0x8000 8-bit samples and another behind it: the pass jumps back and leaves the buffer |
| LmdWalk.LongAnglesThrow | driver/src/sick_lmd_scandata_parser.cpp:419-439 | The same telegram with a VANG channel: the pass throws in its first round |
| LmdParser.CountsAreWalked | driver/src/sick_lmd_scandata_parser.cpp:312-470 | On every telegram whose walked counts can be read as shorts the first pass counts exactly the walked channels, stays inside the buffer and does not throw |
| LmdParser.OutcomeExactly | driver/src/sick_lmd_scandata_parser.cpp:312-680 | For every receivable telegram: the parser gets to its end inside buffer and arrays if and only if all walked counts can be read as shorts, all blocks fit, and 8-bit distances and elevation angles, which it reads in pairs of bytes, do not reach behind the buffer; else it is said which of the five other ends it takes |
| LmdParser.LongAnglesOutcome | driver/src/sick_lmd_scandata_parser.cpp:419-439 | A receivable telegram on which a table of angles is resized to a negative size in the first pass |
| LmdParser.LongDistanceOutcome | driver/src/sick_lmd_scandata_parser.cpp:333-358 | A receivable telegram with one DIST channel of 0x8000 samples: the first pass ends, and resizing the ranges throws |
| LmdParser.WritesInsideExactly | driver/src/sick_lmd_scandata_parser.cpp:333-358 | For every telegram whose walked counts can be read as shorts: all writes of the fill pass are inside the array, which is sized by the last walked count, if and only if the k-th channel leaves room for k blocks of its own size |
| LmdParser.UniformFits | driver/src/sick_lmd_scandata_parser.cpp:333-358 | With one common count every block fits |
| LmdParser.ShorterLastOverruns | driver/src/sick_lmd_scandata_parser.cpp:333-358 | A receivable telegram with a DIST channel of two samples and an RSSI channel of one writes the second distance behind the array |
| LmdParser.ScanOutput.FillPass | driver/src/sick_lmd_scandata_parser.cpp:376-679 | The second pass walks the same channels, swaps in place, and stores every block at the position its counter says |
| LmdParser.ScanOutput.FillChannel | driver/src/sick_lmd_scandata_parser.cpp:446-676 | One channel of the second pass |
| LmdParser.ScanOutput.Resize | driver/src/sick_lmd_scandata_parser.cpp:333-358 | The arrays are sized by the counters of the first pass, what fits of the old values stays; a negative size throws |
| LmdParser.SwapSamples | driver/src/sick_lmd_scandata_parser.cpp:477-496 | The swap loop brings exactly the two-byte samples into host order |
| LmdParser.StoredValue | driver/src/sick_lmd_scandata_parser.cpp:573-618 | With one common count and 16-bit distances element k*n+i of the stored array is sample i of the k-th channel of its kind times the scale of the channel, for distances divided by 1000, plus its offset |
| LmdValues.RangeFromBytes | driver/src/sick_lmd_scandata_parser.cpp:573-576 | The same said of the received bytes: sample from two bytes, the first one high, at 21 behind the header, scale from four bytes at 5 and offset from four bytes at 9, divided by 1000 for metres |
| LmdValues.IntensityFromBytes | driver/src/sick_lmd_scandata_parser.cpp:601-617 | The same for intensities of 16-bit and 8-bit channels, without the division |
| LmdValues.ElevationFromBytes | driver/src/sick_lmd_scandata_parser.cpp:622-631 | The elevation table holds the last VANG channel: entry i is its i-th pair of bytes times its scale plus its offset; of an 8-bit channel the pair is read in the host order |
| LmdValues.AzimuthFromBytes | driver/src/sick_lmd_scandata_parser.cpp:633-666 | The azimuth table holds the last ANGL channel: entry i is start angle, i steps and scaled sample, added in ten-thousandths of a degree, in radians from the angle shift on, all taken from the received bytes |
| LmdValues.HeadsFromBytes | driver/src/sick_lmd_scandata_parser.cpp:269-296 | Where every channel header stands, counted from byte 62 by encoder blocks of six bytes, headers of 21 bytes and the samples |
| LmdParser.SamplesSwappedOnly | driver/src/sick_lmd_scandata_parser.cpp:477-496 | The buffer afterwards is the received one with the two bytes of every 16-bit sample of the walked channels exchanged, byte for byte, and nothing else |
| LmdTelegram.ValueAtPosition | driver/src/sick_lmd_scandata_parser.cpp:573-618 | Every position of the stored array belongs to one sample of one channel |
| LmdTelegram.RestAtStart | driver/src/sick_lmd_scandata_parser.cpp:282-296 | Channel j stands where the counts of the channels before it put it |
| OutputStates.ParseLIDoutputstateMsg | driver/src/sick_scan_messages.cpp:104-226 | The parser accepts exactly the two layouts, publishes the states 0 and 1 in order with their counts, and throws exactly for parameter blocks of 9 or 14 bytes with a positive status; none of its later error exits is ever taken |
| OutputStates.LayoutsExclusive | driver/src/sick_scan_messages.cpp:118-142 | The layouts with and without timestamp exclude each other |
| OutputStates.AcceptedStatus | driver/src/sick_scan_messages.cpp:122-137 | The status read in advance is the one found behind the states, and exactly the checksum byte remains |
| OutputStates.BlockIsAccepted | driver/src/sick_scan_messages.cpp:104-226 | Every block with any states and with or without timestamp is accepted and read back |
| OutputStates.AcceptedIsBlock | driver/src/sick_scan_messages.cpp:104-226 | Every accepted telegram is head, the block read from it, and checksum |
| OutputStates.AcceptsExactlyBlocks | driver/src/sick_scan_messages.cpp:111-142 | A telegram is accepted if and only if the bytes between head and checksum are a block |
| MessageLayout.StatesLayout | driver/src/sick_scan_messages.cpp:104-226 | Of every accepted telegram, by byte position: version at 27, counter at 29, state and count of output i at 33 and 34 plus 5i, status and time behind them |
| MessageLayout.KeptExactly | driver/src/sick_scan_messages.cpp:158-174 | Published are exactly the states 0 and 1, as often and in the order they come |
| FieldEvaluation.ParseLFErecMsg | driver/src/sick_scan_messages.cpp:252-354 | The parser succeeds exactly if at least one field is announced, all announced fields are complete, exactly one byte remains, and the output list was empty; then it returns the fields in order. A telegram shorter than its head is refused |
| FieldEvaluation.ReadField | driver/src/sick_scan_messages.cpp:276-340 | One field with its dummy words, the LMS5xx extension and the optional timestamp |
| FieldEvaluation.FieldsAreAccepted | driver/src/sick_scan_messages.cpp:252-354 | Encoding any nonempty field list, with or without timestamps and extensions, and parsing returns the same list |
| FieldEvaluation.AcceptedIsFields | driver/src/sick_scan_messages.cpp:252-354 | What is accepted is the encoding of exactly the announced number of fields with nothing left over |
| MessageLayout.EvaluationLayout | driver/src/sick_scan_messages.cpp:252-354 | Of every accepted telegram, by byte position: number of fields at 19, each field with its eight numbers at fixed offsets, 15 more bytes of an LMS5xx exactly if the six bytes behind them are not all zero, status and time, and one byte behind the last field |
| RadarFields.SplitBinaryRadarDatagramToFields | driver/src/sick_generic_radar.cpp:447-599 | The splitter, run step by step, returns no fields for a foreign command or more than four 8-bit channels, else the fields of the split specification |
| RadarFields.Splitter.AppendField | driver/src/sick_generic_radar.cpp:434-444 | A field is appended if it fits; after one failure nothing is appended |
| RadarFields.Splitter.AppendChannels | driver/src/sick_generic_radar.cpp:493-513 | Channel loops, steered by counts read from the field appended last |
| RadarFields.SplitTiles | driver/src/sick_generic_radar.cpp:434-599 | For every datagram, complete or cut short, the fields tile it from byte 17 on, and their lengths plus the rest are all its bytes |
| RadarFields.CompleteIsGrouped | driver/src/sick_generic_radar.cpp:913-951 | In a complete datagram every five-byte field is a channel identifier, followed by scale, offset, amount and that many samples: all rows the parser addresses exist |
| RadarFields.EncodedIsCut | driver/src/sick_generic_radar.cpp:434-599 | A datagram built from any channels and optional parts is cut exactly at its field boundaries, completely |
| RadarFields.HeaderRows | driver/src/sick_generic_radar.cpp:466-494 | The nineteen header fields of any datagram that is long enough, by byte position |
| RadarFields.SampleRow | driver/src/sick_generic_radar.cpp:993-1000 | Row 4 + i behind the identifier of any channel, 16-bit or 8-bit, holds exactly the bytes of its sample i, and the three rows behind the identifier scale, offset and number of samples |
| RadarRows.SearchFindsLastChannel | driver/src/sick_generic_radar.cpp:913-922 | In a binary datagram of any channels the search for a five-byte keyword returns the row of the last channel of that name, and none if there is none: no other field is taken for a keyword |
| RadarText.Print16Read | driver/src/sick_generic_radar.cpp:187-203 | Printing a short as four hexadecimal digits and reading it is the identity on all shorts |
| RadarText.Print8Read | driver/src/sick_generic_radar.cpp:1379-1381 | Two-digit values of the 8-bit channels come back exactly if and only if they are 0 to 255 |
| RadarText.CountRead | driver/src/sick_generic_radar.cpp:1262-1263 | A printed count is read back if and only if it is not between 0x8000 and 0xFFFF |
| RadarText.FourDigitValue | driver/src/sick_generic_radar.cpp:187-203 | Four digits, the most significant one first, are a signed number of 16 bits |
| RadarText.RoundedWithinHalf | driver/src/sick_generic_radar.cpp:1298-1317 | The rounded value is off by at most half a step |
| RadarText.GetFloatWord | driver/src/sick_generic_radar.cpp:282-304 | The digit loop sets the four bytes of a float; a short text leaves zero |
| RadarText.FloatWordIs | driver/src/sick_generic_radar.cpp:282-304 | Eight digits are the word of the float |
| RadarText.SpacedTokens | driver/src/sick_generic_radar.cpp:645-656 | Tokens written with spaces are found again |
| RadarEmulator.SimulateAsciiDatagram | driver/src/sick_generic_radar.cpp:1242-1390 | The emulator writes header, 16-bit channels, 8-bit channels and trailer |
| RadarEmulator.WriteChannel | driver/src/sick_generic_radar.cpp:1247-1324 | One channel: introduction, number of values, printed values |
| RadarEmulator.ChannelText | driver/src/sick_generic_radar.cpp:1106-1121 | In the text a channel starts with keyword, scale, offset and number of values, separated by blanks |
| RadarSearch.FindKeywords | driver/src/sick_generic_radar.cpp:913-922 | The search keeps the last field that equals a keyword |
| RadarParser.CheckEntries | driver/src/sick_generic_radar.cpp:924-951 | Entries are accepted exactly if all keywords are there with equal numbers of entries |
| RadarParser.ParseRawTargets | driver/src/sick_generic_radar.cpp:954-1028 | Every raw target is converted from its rows |
| RadarParser.ParseObjects | driver/src/sick_generic_radar.cpp:1031-1083 | Every object is converted from its rows |
| RadarParser.WideFound | driver/src/sick_generic_radar.cpp:913-922 | In an emulated text the parser finds each 16-bit channel at its own row |
| RadarParser.EmulatedFields | driver/src/sick_generic_radar.cpp:645-656 | Tokenising the emulated text gives exactly the emulated fields |
| RadarParser.TargetsAccepted | driver/src/sick_generic_radar.cpp:924-951 | The parser accepts all emulated raw targets, in their number |
| RadarParser.ObjectsAccepted | driver/src/sick_generic_radar.cpp:924-951 | The parser accepts all emulated objects, in their number |
| RadarParser.TargetRecovered | driver/src/sick_generic_radar.cpp:984-1028 | Every emulated raw target comes back, whatever offsets the channels announce: distance, azimuth and radial velocity plus the offset within half a step; amplitude and mode are the rounded ones with the offset added and rounded once more, and without an offset come back under the stated exact conditions |
| RadarParser.NegativeAmplitudeMoves | driver/src/sick_generic_radar.cpp:1018-1022 | An amplitude of -2 comes back as -1 |
| RadarParser.ObjectRecovered | driver/src/sick_generic_radar.cpp:1031-1083 | Every emulated object comes back, whatever offsets the channels announce: position, velocity and length plus the offset within half a step, and the identifier, which takes no offset, if and only if its rounded value is 0 to 255 |
| RadarParser.ChannelReadBack | driver/src/sick_generic_radar.cpp:275-280 | A 16-bit channel of any scale and offset is read back with its number of entries: each entry is its steps times the scale plus the offset, within half a step of the value written |
| RadarParser.NarrowReadBack | driver/src/sick_generic_radar.cpp:1369-1383 | An 8-bit entry is read back if and only if its rounded value is 0 to 255 |
| Rotation.QuaternionAgreesWithMatrix | doc/sick_scan_api/trafo_example.py:15-50 | For all unit half angles the quaternion has norm 1 and its rotation matrix is rot_z * rot_y * rot_x of the full angles |
| Rotation.ComposeRotation | doc/sick_scan_api/trafo_example.py:36-50 | Multiplying quaternions multiplies their matrices |
| Rotation.EulerIsComposition | doc/sick_scan_api/trafo_example.py:36-50 | The quaternion formula is the product of the three axis quaternions |
| Rotation.EulerIsRotation | driver/src/sick_cloud_transform.cpp:156-199 | The matrix from roll, pitch and yaw is orthogonal with determinant 1 |
| Rotation.MultiplyAssociates | driver/src/sick_cloud_transform.cpp:182-199 | The matrix product is associative |
| Rotation.DetProduct | driver/src/sick_cloud_transform.cpp:182-199 | The determinant of a product is the product of the determinants |
| Rotation.DistancePreserved | driver/src/sick_cloud_transform.cpp:156-199 | A rotation preserves all distances |
| CloudTransform.SickCloudTransform.Init | driver/src/sick_cloud_transform.cpp:98-153 | Initialisation accepts exactly six values and chooses between azimuth offset, matrix and identity; on failure nothing changes |
| CloudTransform.SickCloudTransform.ApplyTransform | include/sick_scan/sick_cloud_transform.h:100-128 | The update of x, y and z is rotation, if configured, then translation |
| CloudTransform.AzimuthOffsetRotates | driver/src/sick_scan_common.cpp:5069-5075 | Adding yaw to the azimuth before the conversion is multiplication by the yaw matrix |
| CloudTransform.PolarIsRotation | driver/src/sick_scan_common.cpp:5069-5073 | The conversion of a scan point is the beam along the x axis tilted upwards by the elevation and turned by the azimuth |
| CloudTransform.PolarKeepsRange | driver/src/sick_scan_common.cpp:5069-5073 | The point is as far from the origin as the range says, and above the horizon exactly if the elevation is |
| CloudTransform.ShortcutIsExact | driver/src/sick_cloud_transform.cpp:124-137 | Every scan point lands where the configured pose puts it if and only if the shortcut is not taken or the two angles it drops are really zero |
| CloudTransform.CartesianIsExact | driver/src/sick_cloud_transform.cpp:115-122 | For cartesian input the transform is exact if and only if the matrix is used or the angles left out make no rotation |
| CloudTransform.EulerIdentity | driver/src/sick_cloud_transform.cpp:156-180 | Roll, pitch and yaw give the identity exactly when all are zero or all are half turns |
| CloudTransform.CloudIsRigid | include/sick_scan/sick_cloud_transform.h:100-128 | Whatever is configured, distances between the points of a cloud stay as they are |
| CloudTransform.ScanIsRigid | driver/src/sick_scan_common.cpp:5069-5075 | Distances between scan points stay as they are, also when yaw goes into the azimuth |
| NumberText.BinPrints | driver/src/binPrintf.cpp:40-77 | Padding on the left or the right, with spaces or zeros |
| NumberText.BinPrinti | driver/src/binPrintf.cpp:82-144 | The printed text in base 10 and 16; all writes stay inside the twelve-character buffer |
| NumberText.WriteDigits | driver/src/binPrintf.cpp:117-128 | The backward digit loop writes the digits of the number in front of the terminator |
| NumberText.BufferIsTight | driver/src/binPrintf.cpp:79-82 | A negative number of ten digits fills all twelve characters, and no number needs more |
| NumberText.BinAtob | driver/src/binScanf.cpp:84-154 | Reading a number with optional 0x prefix, point and base |
| NumberText.PrintedReadBack | driver/src/binScanf.cpp:84-154 | A 32-bit number printed without sign in base 10 or 16 is read back if and only if it was not padded, or padded with zeros on the left, or is zero padded with zeros |
| NumberText.SignedReadBack | driver/src/binPrintf.cpp:113-144 | A 32-bit number printed with sign in base 10, the smallest included, stands for itself if and only if it needed no padding, or the padding was zeros on the left, or it was the zero padded with zeros |
| NumberText.LetterCase | driver/src/binPrintf.cpp:119-128 | Letters among the digits are all capitals or all small, as asked for |
| NumberText.PaddedFiveIsLost | driver/src/binScanf.cpp:84-154 | Five in a field of two: with a blank in front it is refused, with a zero behind it is read as fifty |
| NumberText.BinPrintiBytes | driver/src/binPrintf.cpp:91-104 | The bytes of a number, most significant first, by arithmetic shifts |
| NumberText.ScanBytes | driver/src/binScanf.cpp:327-377 | The scan skips whitespace and stores the bytes it takes in host order |
| NumberText.BytesReadBack | driver/src/binScanf.cpp:327-377 | Whenever the scan finds enough bytes, the value it stores for a number written as raw bytes is that number if and only if its first byte is no whitespace |
| NumberText.BlankByteSkipped | driver/src/binScanf.cpp:327-377 | 0x20000000 followed by a byte 1 is read as 1 |
| PointCloud.CellInside | driver/src/sick_scan_common.cpp:5009-5012 | Every point of every layer and echo has its sixteen bytes inside the data |
| PointCloud.CellsDisjoint | driver/src/sick_scan_common.cpp:5009-5012 | Different points have disjoint bytes |
| PointCloud.RangeReadInside | driver/src/sick_scan_common.cpp:4955-4958 | Every range that is read exists, whatever the layers and echoes |
| PointCloud.RangeNumIsWidth | driver/src/sick_scan_common.cpp:4955-4958 | An echo has as many scan indices as the cloud has columns if and only if there is one layer or the ranges per valid echo are those per echo; in particular when all echoes are valid |
| PointCloud.AllCellsInside | driver/src/sick_scan_common.cpp:4955-5012 | All cells of all layers lie inside the data under exactly that condition |
| PointCloud.OneOfThreeEchoesOverruns | driver/src/sick_scan_common.cpp:4955-5012 | One valid echo of three and four layers: the last layer writes behind the data |
| PointCloud.Cloud.FillEcho | driver/src/sick_scan_common.cpp:4997-5095 | The points of one echo that the filter keeps stand one behind the other from the start of their row, also where there are more scan indices than columns; nothing else changes |
| PointCloud.Cloud.FillLayer | driver/src/sick_scan_common.cpp:4955-5097 | With the number of scan indices the code computes: all valid echoes of a layer are stored so, nothing but their kept points is written, and the result is the largest number of points kept |
| PointCloud.Cloud.AddLayer | driver/src/sick_scan_common.cpp:4917-5097 | One telegram: setting the same layout again keeps the layers of earlier telegrams, and every cell that holds no kept point of this layer is the one resizing left |
| PointCloud.Cloud.ResizePointCloud | include/sick_scan/sick_range_filter.h:182-199 | Shrinking keeps the first columns of every row |
| PointCloud.Cloud.FillCloud | driver/src/sick_scan_common.cpp:4917-5142 | All layers of a revolution and the shrinking to what the last layer kept: every row starts with the kept points of its layer and echo, cut at the new width, and every cell behind them, as in rows of layers that did not come, is the one the data held before the revolution |
| PointCloud.NothingLostExactly | driver/src/sick_scan_common.cpp:5138-5142 | In the published cloud every kept point of every layer is there, if and only if points are not dropped or no layer kept more points of an echo than the last one |
| PointCloud.OnlyNewExactly | driver/src/sick_scan_common.cpp:4917-5142 | The converse: the published cloud holds nothing but kept points of this revolution and zeros, if and only if every row kept at least the final width or the cells behind its points were zero before the revolution |
| PointCloud.DroppedEchoShowsOldCell | driver/src/sick_scan_common.cpp:4917-5142 | One layer and two echoes of which the second is dropped: its cell is that of the telegram before |
| PointCloud.LastLayerCutsTheFirst | driver/src/sick_scan_common.cpp:5138-5142 | The first two layers of a four-layer lidar, of one range: the second drops its point, and the first loses its own |
| PointCloud.RangeMatchesIntensity | driver/src/sick_scan_common.cpp:5047-5088 | Range and intensity of a point come from the same echo for all valid echoes if and only if the valid echoes are the first ones |
| PointCloud.SecondEchoMismatch | driver/src/sick_scan_common.cpp:5047-5088 | If only the second of two echoes is valid, ranges of the first meet intensities of the second |
| TriangleFan.CountTriangles | driver/src/sick_scan_marker.cpp:274-287 | The counting pass |
| TriangleFan.CountIsExact | driver/src/sick_scan_marker.cpp:274-287 | The counting pass counts exactly the triangles of all fans, dynamic fields included |
| TriangleFan.Marker.AppendTrianglePoints | driver/src/sick_scan_marker.cpp:248-270 | One fan is appended, corners and colours, cut off at the number of triangles |
| TriangleFan.Marker.Fill | driver/src/sick_scan_marker.cpp:310-343 | Every point and colour slot is written, in order, with the fans of all polygons |
| TriangleFan.CreateMonFieldMarker | driver/src/sick_scan_marker.cpp:272-343 | Both passes together produce exactly the fans of all fields |
| TriangleFan.PlainTriangle | driver/src/sick_scan_marker.cpp:248-270 | Triangle t of a plain field has the first corner and the corners t+1 and t+2, in the colour of the field |
| TriangleFan.DynamicTriangle | driver/src/sick_scan_marker.cpp:322-338 | A dynamic field is two fans, of the first half of its points in half the brightness, and behind it of the second half in its own colour |
| TriangleFan.FanArea | driver/src/sick_scan_marker.cpp:248-270 | The signed areas of a fan add up to the shoelace area of its polygon, convex or not |
| TriangleFan.MarkerArea | driver/src/sick_scan_marker.cpp:310-343 | The triangles of all fans cover the areas of all polygons |

## Left out

- TcpReceiver: mutex, logging, timestamps of datagrams and the sockets behind the callback; `recvQueue` is a growing sequence.
- ConvertAscii2BinaryCmd: the argument packing of individual keywords; its result is a parameter.
- ParseNAV350BinaryPositionData: tags beyond the end of the telegram are read from memory that is a parameter; `angleOffset` is not serialised by the source either.
- ParseCommonBinaryResultTelegram: what it leaves behind on telegrams on which it reads outside the buffer or writes outside the arrays (exactly when it does is `LmdParser.OutcomeExactly`), or in the arrays after throwing; header fields before the channels, time increments, wrap avoidance of angles, and float rounding.
- FillPass: telegrams on which it would read outside the buffer or write outside the arrays, which is undefined there (exactly which is `LmdParser.OutcomeExactly`).
- FillChannel: channels whose samples or block lie outside the buffer or the arrays, for the same reason.
- StoredValue: telegrams whose walked channels do not share one count, where later blocks overwrite earlier ones (as `LmdTelegram.StoredBlocks` says), and 8-bit distances, which are read in pairs of bytes.
- ParseLIDoutputstateMsg: header stamps and debug output.
- SplitBinaryRadarDatagramToFields: datagrams that end inside the command, where the source compares bytes behind the end; they count as foreign commands.
- SimulateAsciiDatagram: the moving vehicles that fill the lists; values outside the range of a short, whose conversion is undefined.
- ParseRawTargets: the preheader and encoder fields; a datagram whose announced rows are missing, where the source reads beyond its field list.
- ParseObjects: the keyword list of the one-dimensional radar.
- GetHexValue: sign and 0x prefix as `sscanf` accepts them.
- BinPrinti: other bases, the format string loop around it, and the negation of the smallest int, which is undefined; the model wraps around.
- CheckEntries: a text that ends within three fields behind a keyword, where the source reads beyond its field list; in a complete binary datagram that cannot happen (`RadarFields.CompleteIsGrouped`).
- ScanBytes: widths beyond the end of the input, and of more than the eight bytes of an unsigned long.
- Init: parsing of the parameter text into numbers, and dynamic updates of the parameter.
- FillLayer: conversion of a range to coordinates inside the cell (see `CloudTransform.Placed`), publishing, partial clouds, and layers whose rows overrun (exactly when they do is `PointCloud.RangeNumIsWidth`).
- AddLayer: telegrams whose rows overrun, as for `FillLayer`.
- FillCloud: revolutions whose layers come with different numbers of ranges, which changes the layout between layers.
- SearchFindsLastChannel: the conversion of binary rows into targets and objects; the text protocol is modelled to the end.
- CreateMonFieldMarker: centroids, texts and legends, and the transform of the corners.
- SoftwarePLL, IMU messages, device initialisation and parameter tables, compact and msgpack formats, LD-MRS, and services: not part of this model.
