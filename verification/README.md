# A verified model of the map editor's codecs and engines

The map editor of this repository reads and writes several formats and keeps several pieces of
shared state. This project models the parts of it where an error would silently lose a user's
work, in Dafny, and proves what their code and documentation promise:

- **DEFLATE and PNG** (`ui/stb_image_write.h`, `canvas/stb_image.h`). `Deflate.dfy` says what a
  DEFLATE stream stands for, after RFC 1951. The writer (`ZlibOut`, `Lz77`, `ZlibEmit`, `Adler`,
  `ZlibWriter`) and the reader (`HuffmanCode`, `BitReversal`, `HuffmanTable`, `ZlibBits`, `Inflate`,
  `DynamicCodes`, `FixedCode`, `StoredBlock`, `ZlibReader`) are proved against it separately, the
  reader for all three block types. `ZlibRoundTrip` puts them together, and `PngFilter` and
  `PngImage` add the row filters. `RunLength` and `TgaRows` are the two run-length coders.
- **The sync protocol** (`server_rust/src/sync.rs`, `server_rust/src/server.rs`,
  `client_rust/src/lib.rs`). `SyncCodec` has the wire format and the message loop, `SyncSystem` one
  server and any number of clients as small steps over queues. A document is the set of operations
  it holds, applying an update is union, and the difference against a state vector is set difference.
- **The building and its files** (`model/`). `YamlTree`, `YamlBuilding`, `YamlIo`, `YamlRoundTrip`,
  `YamlStable` and `YamlForms` are the YAML tree printer and parser, `BundlePaths`, `Bundle`, `BundleRead`,
  `BundleChecked` and `BundleRoundTrip` the bundle with its two reading paths, `DeleteVertex` the renumbering, and
  `FloorFit` and `FloorPixels` the least-squares fit between floors and the mappings built on it.
- **Stateful engines.** `EditHistory`, `FloodFill`, `EarClip`, `TextureLoader`, and the text search for
  JSON fields in `JsonFields` with the saved session in `SessionRestore`.

Code that changes things step by step is modelled by methods with loops, and by classes where the
source updates an object; each such method is tied to a function of its input or old state, and the
laws are proved about that function. Concurrency is modelled as a state machine.

Several promises turned out to hold only under a condition. The code is modelled as it is, and the
exact condition is proved:

- Compressing the empty input writes a stream without blocks, which the reader refuses
  (`ZlibRoundTrip.RoundTrip`).
- A bundle whose yaml name or entry is longer than 511 characters is written but not read back, because
  the zip reader cuts names there, `third_party/miniz/miniz.c:4480-4482`
  (`BundleRoundTrip.BundleReadsBack`). A name that ends in a slash cannot hold data,
  `third_party/miniz/miniz.c:6676-6683`, so writing fails (`Bundle.WriteBundle`).
- A bundle read as a plain folder differs from the manifest path when the map names its own yaml as an
  image (`BundleRoundTrip.FolderReadsBack`).
- A floor that repeats the key `holes`, the first time with something the model does not have and the
  last time with holes it has, prints differently the second time, unless a later level of the same
  name replaces it (`YamlStable.PrintingSettles`, `YamlStable.TwiceHoledMoves`).
- A fit over targets that are almost but not quite in one place keeps the initial scale and is then
  not the best one (`FloorFit.FitIsBest`, `FloorFit.FitIsExact`, `FloorFit.FitNotBest`); a fit of scale below the threshold has no inverse
  (`FloorPixels.PixelsInverse`).
- A restored session does not bring the branch back: a bucket session on another branch than the form
  stands at is mounted on the form's (`SessionRestore.FormBack`, `SessionRestore.MountsAgain`).
- A sync frame with two updates would lose the second for other clients; no step ever makes one
  (`SyncSystem.NothingDropped`, `SyncSystem.TwoUpdatesLoseOne`).

`dafny verify dfyconfig.toml` checks the whole project.

## Model

| member | source | states |
|---|---|---|
| HuffmanCode.MatchUnique | canvas/stb_image.h:4138-4149 | codes handed out by length and symbol order are prefix free: a bit buffer starts with the code of at most one symbol (RFC 1951 section 3.2.2) |
| HuffmanCode.PrefixFree | canvas/stb_image.h:4138-4149 | the same on bit strings: no code word starts another |
| HuffmanCode.IntervalMatch | canvas/stb_image.h:4224-4241 | a buffer inside the interval of a length matches the symbol of that length which the subtraction finds |
| HuffmanCode.CodeBitsMatch | canvas/stb_image.h:4224-4271 | a buffer that starts with the bits of a symbol's code word, as they travel in the stream, matches that symbol |
| HuffmanCode.SlotInjective | canvas/stb_image.h:4153-4157 | different symbols sit in different slots of the sorted tables |
| BitReversal.BitReverse16Correct | canvas/stb_image.h:4107-4114 | the four swap lines reverse the low sixteen bits of every argument |
| BitReversal.BitReverseCorrect | canvas/stb_image.h:4116-4122 | for every width up to 16 the shift keeps exactly the reversed low bits |
| HuffmanTable.AssignCodes | canvas/stb_image.h:4138-4150 | first codes, first slots and preshifted limits of every length, or a refusal exactly when some length has more codes than room |
| HuffmanTable.FillFast | canvas/stb_image.h:4158-4163 | one short code is entered in exactly the fast cells whose low bits are its reversed code |
| HuffmanTable.EnterSymbols | canvas/stb_image.h:4151-4167 | all symbols entered: fast cells and slots describe the code |
| HuffmanTable.Build | canvas/stb_image.h:4124-4169 | accepts a list of lengths exactly when every code has room, and then the tables decode the canonical code of the lengths |
| ZlibBits.ZBuf.FillBits | canvas/stb_image.h:4202-4212 | moves bytes above the buffered bits without changing the bits still to be read; past the end of the input zero bits are read |
| ZlibBits.ZBuf.Receive | canvas/stb_image.h:4214-4222 | returns the next n bits as a number and drops exactly them |
| ZlibBits.ZBuf.DecodeSlow | canvas/stb_image.h:4224-4241 | with sixteen buffered bits and no short code matching: the one symbol whose code the buffer starts with, -1 exactly when there is none; the computed slot always holds a symbol of the right length |
| ZlibBits.ZBuf.DecodeBuffered | canvas/stb_image.h:4256-4271 | fast table and slow path together: right symbol, right bits consumed, -1 only when no code matches |
| ZlibBits.ZBuf.Decode | canvas/stb_image.h:4243-4271 | with 32 bits left in the stream the end-of-input padding stays out of play and the result is the next code word |
| Inflate.Reserve | canvas/stb_image.h:4273-4293 | makes room by doubling, refused exactly when the bytes would not fit the size reached by doubling as long as it fits 32 bits, or the size itself for a buffer that may not grow |
| Inflate.CopyRun | canvas/stb_image.h:4340-4357 | a copy of len bytes from dist back, source and target overlapping, is the byte-by-byte copy; a distance of one is a run |
| Inflate.ReadItem | canvas/stb_image.h:4309-4357 | one turn of the loop on a spelled literal or copy does to the output what the item means; on any stream a turn that goes on has taken the bits of some item and played it, and one that ends the block has taken the end code |
| Inflate.ParseHuffmanBlock | canvas/stb_image.h:4309-4357 | a spelled block of items leaves the output of all items in order and stops behind the end code; on any stream success means that some items and the end code were read and played |
| DynamicCodes.ReadRun | canvas/stb_image.h:4383-4401 | a run code repeats the previous length or zero as often as its extra bits say, and success means some run was read |
| DynamicCodes.ReadGiven | canvas/stb_image.h:4361-4376 | the lengths a dynamic header gives go, on any stream, to the symbols in the order of RFC 1951 section 3.2.7, said symbol by symbol: 16, 17, 18, 0, then 8 upwards and 7 downwards in turn; what is not given is 0 |
| Deflate.LengthsPlaced | canvas/stb_image.h:4361-4376 | the meaning of a header used by all block results puts the lengths at the same symbols |
| Deflate.RunCounts | canvas/stb_image.h:4381-4401 | code 16 repeats the length before 3 to 6 times, 17 and 18 stand for 3 to 10 and 11 to 138 zeros |
| Deflate.CountsPacked | canvas/stb_image.h:4367-4369 | the three counts of a dynamic header are five, five and four bits, and stand for 257, 1 and 4 more |
| DynamicCodes.ReadCodes | canvas/stb_image.h:4359-4407 | a well-formed dynamic header builds the two codes it spells; on any stream success means that a well-formed header was read and the tables describe its two codes (RFC 1951 section 3.2.7) |
| FixedCode.FixedCodeOf | canvas/stb_image.h:4452-4479 | the canonical code of the default lengths is the table of RFC 1951 section 3.2.6 |
| FixedCode.FixedAcceptable | canvas/stb_image.h:4452-4479 | the default lengths leave every code room, so building their tables never fails |
| Deflate.LengthTable | canvas/stb_image.h:4295-4301 | the length bases and extra bits are those of section 3.2.5: each code goes on where the one before ends, and the last is 258 alone |
| Deflate.DistanceTable | canvas/stb_image.h:4303-4307 | the distance bases and extra bits likewise, 1 to 32768 without gap or overlap |
| StoredBlock.ParseStored | canvas/stb_image.h:4409-4436 | after the padding bits the block is accepted exactly when length, complement and that many bytes stand there and the output has room; the bytes go out and the reader stands behind them |
| ZlibReader.ReadZlibHeader | canvas/stb_image.h:4438-4450 | the two header bytes are accepted exactly under the four conditions of the format |
| ZlibReader.ReadBlock | canvas/stb_image.h:4489-4506 | one turn of the block loop on a spelled block of any of the three kinds gives its expansion; on any stream success means that some block was read and expanded |
| ZlibReader.ReadBlocks | canvas/stb_image.h:4486-4507 | a spelled run of blocks inflates to the output they stand for; on any stream success means that a whole stream of blocks was read which stands for the output; on every input the loop ends |
| ZlibReader.DoZlib | canvas/stb_image.h:4481-4518 | every well-formed stream with four bytes behind it inflates to what it stands for, whenever that fits the buffer; on any input success means that the input, behind its header and with zero bytes after its end, starts with a stream that stands for the output; one that starts with a bad stored block is refused |
| ZlibOut.ZOut.Add | ui/stb_image_write.h:903-912 | or-ing a code in above the waiting bits appends its bits to what is written |
| ZlibOut.BitRev | ui/stb_image_write.h:914-921 | the loop reverses the low bits of the code |
| ZlibOut.ZOut.Huff | ui/stb_image_write.h:946-956 | appends the fixed code word of a symbol, as the reader's table of section 3.2.6 spells it |
| Lz77.CountMatch | ui/stb_image_write.h:923-930 | how far two strings agree, up to the limit and 258 |
| Lz77.MatchEnds | ui/stb_image_write.h:923-930 | it ends at the limit, at 258 bytes, or where the strings differ, not before |
| Lz77.FindMatch | ui/stb_image_write.h:1004-1016 | of the chain entries inside the window the one that matches furthest, at least three bytes, and of several such the one added last; or none |
| Lz77.Search | ui/stb_image_write.h:1002-1040 | the furthest match on the chain, given up exactly when the next position's chain holds a further one; only the chain of the position changes, trimmed by half when full, with the position added |
| ZlibEmit.EmitCopy | ui/stb_image_write.h:1042-1055 | length code, extra bits, distance code and extra bits written for a match are the item's bits, for every length 3 to 258 and distance 1 to 32767 |
| ZlibEmit.CopyIsMatch | ui/stb_image_write.h:1008-1016 | copying a found match back reproduces the bytes it was found for, overlap included |
| Adler.NoWrap | ui/stb_image_write.h:1096-1106 | the sums of a chunk of 5552 bytes stay inside 32 bits |
| Adler.Checksum | ui/stb_image_write.h:1093-1112 | the chunked 32-bit sums give the two sums reduced after every byte |
| ZlibWriter.WriteMatches | ui/stb_image_write.h:1001-1060 | the items written so far always expand to the bytes passed over |
| ZlibWriter.CompressFixed | ui/stb_image_write.h:990-1067 | the whole input as one final block in the fixed code, padded to a byte |
| ZlibWriter.StoreAll | ui/stb_image_write.h:1073-1091 | the fallback writes blocks of at most 32767 bytes that stand for the input, only the last one final |
| ZlibWriter.CompressBody | ui/stb_image_write.h:990-1091 | falling back never makes the output longer than n + 2 + 5 * ceil(n / 32767) |
| ZlibWriter.Compress | ui/stb_image_write.h:964-1118 | on either path a zlib stream that stands for the input, its checksum, and the length bound; the empty input gets a stream without blocks |
| ZlibRoundTrip.RoundTrip | ui/stb_image_write.h:964-1118 | inflating the compressor's output gives back the input exactly when the input is not empty, for every quality |
| PngFilter.PaethAgree | canvas/stb_image.h:4657-4668 | the branch-free Paeth equals the reference Paeth on all integers |
| PngFilter.EncodeLine | ui/stb_image_write.h:1199-1269 | every filter on every row, the replaced kinds of the first row included, writes the line of PNG section 9.2 |
| PngFilter.UnfilterFilters | canvas/stb_image.h:4754-4785 | the row that unfilters from a line is the one that was filtered |
| PngFilter.UnfilterRow | canvas/stb_image.h:4751-4785 | the reader's switch with its first-row remap rebuilds a row as PNG section 9.2 says |
| PngImage.ChooseFilter | ui/stb_image_write.h:1302-1325 | the kept filter has the least estimate of the five, the first of equals |
| PngImage.FilterImage | ui/stb_image_write.h:1296-1330 | the filtered image is (w + 1) * h bytes: each row's filter byte and its line, the filter being the forced one, or else the cheapest of the five for that row |
| PngImage.UnfilterImage | canvas/stb_image.h:4696-4787 | rows are rebuilt with two alternating buffers; the filtered image of any rows gives the rows back |
| PngImage.ImageRoundTrip | ui/stb_image_write.h:1271-1334 | filtering, compressing, inflating and unfiltering gives back every image with at least one row, for every forced or chosen filter and quality |
| RunLength.EncodeComponent | ui/stb_image_write.h:774-808 | the packets written for a component are 1 to 127 repeats or 1 to 128 bytes and expand to it; wherever the bytes stand the reader makes the component of them and stops behind them; every turn makes progress |
| RunLength.WriteScanline | ui/stb_image_write.h:718-810 | a scanline of width 8 to 32767 is its four header bytes and its four encoded components, and wherever it stands the reader gets the four components back and stops behind it |
| RunLength.DecodeComponent | canvas/stb_image.h:7262-7277 | the reader's packet loop is its recursive description, empty and overlong packets refused |
| RunLength.ReadScanline | canvas/stb_image.h:7230-7278 | header test, width test and four components |
| RunLength.PacketsBack | canvas/stb_image.h:7262-7277 | packets wherever they stand are read back, and the reader goes on behind them |
| RunLength.ScanlineBack | canvas/stb_image.h:7230-7278 | every written scanline of width 8 to 32767 is read back byte for byte |
| TgaRows.FindPacket | ui/stb_image_write.h:609-637 | packet lengths are 1 to 128; a repeat has at least two equal pixels |
| TgaRows.EncodeRow | ui/stb_image_write.h:605-651 | what is written for a row of any width is packets that expand to it, and wherever the bytes stand the reader gets the row back and goes on behind them |
| TgaRows.ReadPixels | canvas/stb_image.h:5970-6025 | the pixel loop with its counter, repeat flag and read flag is its recursive description |
| TgaRows.RowsBack | canvas/stb_image.h:5970-6025 | rows written one after another are read back pixel for pixel |
| SyncCodec.WriteVarint | server_rust/src/sync.rs:20-26 | appends the varint of the value |
| SyncCodec.ReadVarint | server_rust/src/sync.rs:29-47 | value and cursor, or truncated or overflow |
| SyncCodec.VarintRoundTrip | server_rust/src/sync.rs:20-47 | every 64-bit value is read back wherever it stands |
| SyncCodec.VarintDecides | server_rust/src/sync.rs:29-47 | on any bytes: a varint is read exactly when it ends within ten bytes, overflows exactly when ten bytes go on, and is cut off exactly when fewer that are left all go on |
| SyncCodec.OnTheWire | server_rust/src/sync.rs:137-164 | the type bytes of the four messages, and the length byte of a short payload |
| SyncCodec.BufferRoundTrip | server_rust/src/sync.rs:50-63 | a length-prefixed buffer is read back wherever it stands |
| SyncCodec.HandleMessage | server_rust/src/sync.rs:75-134 | the decoding loop on any bytes: document, merged reply and first update, or the error with what was applied before it; no frame, accepted or refused, takes an operation from the document |
| SyncCodec.HandleFrame | server_rust/src/sync.rs:75-164 | handling the concatenation of any encoded messages, awareness included, whose payload lengths fit 64 bits: an operation is in the document afterwards exactly when it was before or an answer or update of the list brings it, each state vector is answered from the document at its place, and what is passed on is the first answer or update |
| SyncCodec.UnknownEnds | server_rust/src/sync.rs:124-127 | a message of an unknown type changes nothing and ends the frame: what stood before it counts, what follows is not looked at |
| SyncCodec.UnknownSyncEnds | server_rust/src/sync.rs:114-117 | so does a sync message of an unknown type |
| SyncCodec.CutOffKeeps | server_rust/src/sync.rs:75-83 | a frame cut off behind some messages is refused, but what they brought stays |
| SyncSystem.HandleSingle | server_rust/src/sync.rs:81-129 | a frame of one message gives one answer or one update |
| SyncSystem.ServerApplyKeeps | server_rust/src/server.rs:351-371 | the server's apply step keeps the invariant of all connections |
| SyncSystem.BroadcastKeeps | server_rust/src/server.rs:341-368 | the separate broadcast step keeps it, though a connection subscribes after the state vector was sent |
| SyncSystem.ClientApplyKeeps | client_rust/src/lib.rs:329-354 | a client's step on a received frame keeps it |
| SyncSystem.StepKeeps | server_rust/src/server.rs:318-370 | every step of server and clients keeps the invariant: one message a frame, no operation on the way lost in either direction |
| SyncSystem.StepHolds | client_rust/src/lib.rs:512-530 | a step brings in exactly what its edit or connect adds |
| SyncSystem.Converged | server_rust/src/server.rs:318-370 | from any start and over any run, once all queues are empty all documents are equal, and hold exactly what there was at first and what was connected or edited |
| SyncSystem.QuietIff | server_rust/src/server.rs:341-368 | no delivery step is left exactly when nothing is on its way: nothing waits for ever |
| SyncSystem.DeliveryDecreases | server_rust/src/server.rs:341-368 | without new edits or connects every step makes a measure on queued messages strictly smaller |
| SyncSystem.DeliveriesEnd | server_rust/src/server.rs:341-368 | so no run of deliveries is longer than the measure where it starts |
| SyncSystem.NothingDropped | server_rust/src/sync.rs:99-113 | in every reachable state all that a frame brings is passed on, although only the first update of a frame is |
| SyncSystem.TwoUpdatesLoseOne | server_rust/src/sync.rs:99-113 | a frame of two updates would lose the second for everybody else |
| FloorFit.FindPairs | model/building.cpp:207-216 | each named reference with the first target of its name |
| FloorFit.PairsAre | model/building.cpp:207-216 | said without the search: a pair is matched exactly when its two are namesakes, the reference named and the target the first of that name, in the order of the references |
| FloorFit.ComputeFloorTransform | model/building.cpp:202-246 | the loops compute the fit of the matched pairs |
| FloorFit.NormalEquations | model/building.cpp:224-245 | with the centroids for centres all residual sums of the fit vanish |
| FloorFit.LeastCost | model/building.cpp:224-245 | a fit whose residual sums vanish costs least of all similarities, any other more by exactly how far it moves the targets |
| FloorFit.FitIsBest | model/building.cpp:224-245 | the fit has the least sum of squared residuals over all similarities exactly when the targets are spread beyond the threshold, or all in one place, or the initial scale happens to be right |
| FloorFit.FitIsExact | model/building.cpp:217-245 | when some similarity relates all pairs, the fit takes every target to its reference exactly when there is one pair, or under the condition of the best fit |
| FloorFit.FitNotBest | model/building.cpp:224-245 | two targets a millionth apart keep the initial scale of 1, which is not the best |
| FloorFit.TransformInverse | model/building.cpp:248-263 | the two directions of a transform are mutual inverses for every scale the inverse accepts |
| FloorPixels.MeasureMpp | model/building.cpp:15-41 | the mean of distance over pixels over the usable measurements |
| FloorPixels.MppBetween | model/building.cpp:15-41 | a floor has a scale exactly when some measurement is usable, and it lies between the least and the greatest ratio of the usable ones |
| FloorPixels.ComputeLevelMpp | model/building.cpp:45-60 | snapshot, own measurements, else those of the first floor that has any |
| FloorPixels.MainLevelIndex | model/building.cpp:62-68 | the first floor with a scale of its own: that one has, none before it has; -1 exactly when none has |
| FloorPixels.SnapshotMpps | model/building.cpp:111-123 | every floor that has no snapshot yet gets its own scale, else that of the first floor that has one |
| FloorPixels.SnapshotKeeps | model/building.cpp:45-60 | taking snapshots changes no floor's scale |
| FloorPixels.SnapshotStays | model/building.cpp:45-50 | once taken, a scale stays whatever becomes of measurements and vertices |
| FloorPixels.FiducialStays | model/building.cpp:70-109 | floors lie on each other: when the matched pairs are related by some similarity and the fit is exact (one pair, or the condition of FloorFit.FitIsExact), every fiducial two floors share comes to the same metres from either floor, and back to the same pixels |
| FloorPixels.MainMetres | model/building.cpp:70-91 | on the main floor lengths are scaled by its metres per pixel, x keeps its direction and y is turned over |
| FloorPixels.MeasurementHolds | model/building.cpp:70-91 | when the usable measurements of the main floor agree, the metres between the ends of each are the distance it states |
| FloorPixels.PixelsInverse | model/building.cpp:70-109 | the two mappings of a floor are mutual inverses exactly when there is a floor and the fit on top, if any, has a scale the inverse accepts |
| DeleteVertex.Level.Delete | model/building.cpp:167-194 | deleting a vertex is one filter-and-renumber pass over vertices, edges, floors and holes |
| DeleteVertex.DeletedAtOnce | model/building.cpp:167-194 | deleting any vertices one after another by their numbers at the time is one pass that takes out all of them |
| DeleteVertex.KeptAt | model/building.cpp:138-165 | a renumbered index finds the very vertex it was for |
| DeleteVertex.EdgesJoin | model/building.cpp:138-153 | surviving edges keep their order and join the same two vertices as before |
| DeleteVertex.FloorsStayIn | model/building.cpp:176-191 | every index of a surviving floor or hole is valid, and none has fewer than three points |
| DeleteVertex.FloorsRun | model/building.cpp:165-193 | a floor survives exactly when three of its points do; its outline runs through the same vertices in the same order, only the deleted ones taken out, and so does every hole that keeps three |
| DeleteVertex.PlanSurvives | model/building.cpp:136-194 | all of this for a whole plan: vertices, lanes, walls, doors, measurements, floors and holes |
| YamlIo.ParseParams | model/yaml_io.cpp:104-108 | the parameter loop on the ordered map |
| YamlIo.Stash | model/yaml_io.cpp:384-389 | the unmodelled keys, assigned one by one |
| YamlIo.ParseFloor | model/yaml_io.cpp:177-209 | floor from its node, holes only when they are typed |
| YamlIo.PrintFloor | model/yaml_io.cpp:211-240 | floor to its node, known keys over the passthrough |
| YamlIo.ParseLevel | model/yaml_io.cpp:341-391 | level from its node with the loops of the source, or its refusal; what the function it equals does is YamlRoundTrip.LevelBack for printed forms and the YamlForms rows for shorter ones |
| YamlIo.PrintLevel | model/yaml_io.cpp:393-452 | level to its node |
| YamlIo.ParseBuilding | model/yaml_io.cpp:466-499 | building from the loaded tree, level by level, or the first refusal; see YamlStable.BuildingBack and YamlForms.BuildingLacks for what that gives |
| YamlIo.PrintBuilding | model/yaml_io.cpp:549-564 | building to the tree that is emitted |
| YamlRoundTrip.ParamsBack | model/yaml_io.cpp:15-90 | printed parameters are parsed back, types and order included |
| YamlRoundTrip.FloorBack | model/yaml_io.cpp:164-240 | a normal floor is parsed back from its node |
| YamlRoundTrip.LayerBack | model/yaml_io.cpp:263-326 | a normal layer is parsed back from its node |
| YamlRoundTrip.LevelBack | model/yaml_io.cpp:341-452 | a normal level is parsed back from its node |
| YamlForms.VertexShort | model/yaml_io.cpp:92-128 | a printed vertex cut to four, three or two entries is that vertex without parameters, without name, without z; with fewer it is refused |
| YamlForms.EdgeShort | model/yaml_io.cpp:131-158 | a printed edge cut to two entries is that edge without parameters; with fewer it is refused |
| YamlForms.OthersShort | model/yaml_io.cpp:242-278 | a fiducial or colour that is not whole is read as the default |
| YamlForms.PlainParams | model/yaml_io.cpp:44-68 | the older plain form of a parameter: truth value, integer, double or text, in this order |
| YamlForms.ParamCodes | model/yaml_io.cpp:71-90 | the type codes of printed parameters are 1, 2, 3 and 4, each followed by its value |
| YamlForms.EntriesLaidOut | model/yaml_io.cpp:112-259 | which value of a vertex, edge and fiducial stands where in its printed entry |
| YamlForms.LayerLacks | model/yaml_io.cpp:263-326 | a printed layer with any one key taken out is that layer with the default of the key |
| YamlForms.PlaceLacks | model/yaml_io.cpp:279-289 | so is the place of a layer |
| YamlForms.LevelLacks | model/yaml_io.cpp:341-452 | a printed level with any one known key taken out is that level with the default of the key |
| YamlForms.BuildingLacks | model/yaml_io.cpp:466-571 | so is a building |
| YamlForms.FloorLacks | model/yaml_io.cpp:164-240 | so is a floor |
| YamlForms.HolesRead | model/yaml_io.cpp:162-209 | lists of integers become the holes of a floor; anything that is no list of lists of scalars is none of them and comes out as it was |
| YamlForms.VertexUnread | model/yaml_io.cpp:92-158 | in a vertex or edge only the numbers it starts with must be readable, anything else that is not of its kind counts as the default |
| YamlForms.LayerUnread | model/yaml_io.cpp:263-289 | so in a layer, which may even be no mapping at all |
| YamlForms.ParamUnread | model/yaml_io.cpp:15-43 | a typed parameter that cannot be read is the zero of its type, and an unknown code makes a text |
| YamlForms.LevelRefused | model/yaml_io.cpp:341-391 | a level that is a text or a list with elements, or whose drawing is a bare text, is refused |
| YamlForms.VertexRefused | model/yaml_io.cpp:341-391 | one unreadable vertex refuses the level |
| YamlForms.EdgeRefused | model/yaml_io.cpp:341-391 | so does one unreadable lane, wall, door or measurement |
| YamlStable.BuildingBack | model/yaml_io.cpp:466-571 | parsing the printed tree gives the building, for every normal building |
| YamlStable.PrintingSettles | model/yaml_io.cpp:466-571 | on every tree the parser accepts what is printed is accepted again, and prints as the same tree exactly when no level that survives printing has a floor that repeats holes with an untyped first and a typed last one; then parsing gives the settled building; from the second print on nothing changes |
| YamlStable.TwiceHoledMoves | model/yaml_io.cpp:164-240 | one level with one such floor prints as two different trees |
| YamlStable.FloorSettlesIff | model/yaml_io.cpp:177-240 | printing a parsed floor settles at once exactly when its mapping does not repeat holes with an untyped first and a typed last one |
| YamlStable.BuildingKeepsUnknown | model/yaml_io.cpp:491-496 | every unknown key of the building comes out with the value it had last |
| YamlStable.LevelKeepsUnknown | model/yaml_io.cpp:383-400 | every unknown key of a level comes out with the value it had last |
| YamlStable.FloorKeepsUnknown | model/yaml_io.cpp:177-240 | every unknown key of a floor comes out with the value it had last, and so do holes the model does not have |
| YamlStable.LayerKeepsUnknown | model/yaml_io.cpp:263-326 | every unknown key of a layer comes out with the value it had last |
| BundlePaths.IsPortable | model/asset_paths.cpp:66-83 | the depth counter says whether the path is relative and never climbs above its start |
| BundlePaths.DepthBalances | model/asset_paths.cpp:66-83 | the counter stays up exactly when no first part of the path goes up more often than down, and is then the difference |
| BundlePaths.PartsJoin | model/asset_paths.cpp:66-83 | the parts it counts are the path cut at its slashes and nothing else |
| BundlePaths.FlatDistinct | model/map_bundle.cpp:68-75 | numbered entries differ whatever their paths |
| BundlePaths.FlatMoves | model/map_bundle.cpp:68-75 | a numbered entry is never the path it stands for |
| Bundle.CollectRefs | model/asset_paths.cpp:14-25 | a name is collected exactly when it is not empty and some floor has it as its drawing or in its layers; floors first to last, the drawing before the layers |
| Bundle.CollectBundle | model/map_bundle.cpp:130-155 | each image once: packed under its entry, or missing |
| Bundle.WriteBundle | model/map_bundle.cpp:157-197 | succeeds exactly when every name is safe and can hold data, and then the archive has the manifest, the yaml and the images |
| BundleRead.ReadBundle | model/map_bundle.cpp:264-395 | both reading paths on any archive, with their refusals |
| BundleRead.FindRoot | model/map_bundle.cpp:206-220 | the one building yaml at the root, or the two refusals |
| BundleChecked.ListChecked | model/map_bundle.cpp:278-300 | the directory of any archive is accepted exactly when every file name in it is safe and the sizes stay within the cap; it then lists exactly the files, each name with its first |
| BundleChecked.ReadChecked | model/map_bundle.cpp:203-395 | whatever archive is read: names safe, sizes, ratio and counts within the caps, the yaml a file of it that parses to the building, every image a file of it and none twice, every image the building shows found or missing; named by a known manifest, or the only yaml at the root |
| BundleRoundTrip.PackedOrMissing | model/map_bundle.cpp:136-153 | every image that is the drawing or a layer of some floor is packed, with the bytes that were read for it, or missing because it cannot be read, never both; nothing else is either |
| BundleRoundTrip.EntriesApart | model/map_bundle.cpp:55-75 | entries are pairwise distinct and none is the manifest's or the yaml's |
| BundleRoundTrip.EntriesWhere | model/map_bundle.cpp:55-75 | an image keeps its path as its entry exactly when the path is portable and neither the manifest, the yaml nor reserved; any other goes under a numbered name that ends in its last part |
| BundleRoundTrip.BundleReadsBack | model/map_bundle.cpp:264-395 | within the caps a collected and written bundle is read back whole exactly when no name is longer than the zip reader keeps |
| BundleRoundTrip.LongNameLost | model/map_bundle.cpp:289-299 | a bundle with a longer name is not read back |
| BundleRoundTrip.FolderReadsBack | model/map_bundle.cpp:203-260 | laid out like a folder and without its manifest it reads as the same bundle exactly when the yaml does not name itself as an image |
| FloodFill.FloodFrom | ui/image_utils.hpp:26-56 | from one start pixel: all it reaches over white is seen and cleared, with one round of the loop for each newly seen pixel |
| FloodFill.RemoveWhiteBackground | ui/image_utils.hpp:10-67 | exactly the alpha of the white pixels joined to the border through white ones is cleared, every other byte stays; the fills take one round for each such pixel, so none is pushed twice |
| EarClip.SignedArea | canvas/canvas.cpp:125-132 | the loop with its wrap-around index computes the shoelace sum |
| EarClip.CutCorner | canvas/canvas.cpp:158-180 | cutting a corner off takes exactly its triangle from the polygon's area |
| EarClip.TestEar | canvas/canvas.cpp:159-175 | a corner is an ear when it turns left and no other point of the loop is in its triangle |
| EarClip.TriangleIs | canvas/canvas.cpp:134-144 | in a triangle that turns left the sign test holds of exactly the weighted means of the three corners: edges and corners are in, nothing outside is |
| EarClip.FillSimplePolygon | canvas/canvas.cpp:146-187 | the triangles are those of a run that cuts the first ear each round, and the last three points if it comes down to them |
| EarClip.RunKeeps | canvas/canvas.cpp:156-184 | after any number of rounds indices rise strictly, and emitted areas and the rest add up to the polygon's |
| EarClip.FilledWhole | canvas/canvas.cpp:146-187 | a fill that comes down to three points emits two triangles fewer than points, of the polygon's total area |
| EarClip.FilledPart | canvas/canvas.cpp:156-187 | a fill that stops earlier has emitted the area of the ears it cut and nothing else |
| EditHistory.History.Trim | model/edit_history.cpp:80-86 | keeps the longest end that limit, budget and minimum allow |
| EditHistory.History.Commit | model/edit_history.cpp:69-78 | the shown map becomes a step, what was undone is out of reach, and the history is the end of one that forgets nothing |
| EditHistory.History.Undo | model/edit_history.cpp:88-99 | one place back along an unchanged line, if there is one |
| EditHistory.History.Redo | model/edit_history.cpp:101-112 | one place forward along an unchanged line, if there is one; the two sides stay within the limit |
| EditHistory.BytesLast | model/edit_history.cpp:88-99 | the counter never goes below nought: the last step's bytes are part of the sum |
| TextureLoader.StepKeeps | canvas/texture_loader.cpp:36-93 | every lock section keeps: the jobs queued, in flight, done or delivered are the textures acquired, each once |
| TextureLoader.NothingStranded | canvas/texture_loader.cpp:36-93 | over every interleaving until the stop no job is delivered twice or lost, and a loading texture has its job outstanding |
| TextureLoader.FirstInFirstOut | canvas/texture_loader.cpp:43-83 | over every run until the stop workers take the jobs in the order in which the textures were acquired |
| TextureLoader.ShownAsFinished | canvas/texture_loader.cpp:55-93 | over every interleaving until the stop jobs are delivered in the order they were finished, and a texture is shown exactly when its own job was delivered as loaded, failed exactly when as not |
| TextureLoader.PoolBounded | canvas/texture_loader.cpp:36-41 | there is a worker as soon as there is a texture, and never more than three |
| TextureLoader.StopStays | canvas/texture_loader.cpp:21-66 | after the stop nothing is queued, delivered or changed any more |
| TextureLoader.WorkShrinks | canvas/texture_loader.cpp:42-68 | every worker step and every drain that finds something leaves less work |
| TextureLoader.LoadingMoves | canvas/texture_loader.cpp:72-93 | as long as a texture is loading, a worker or a drain can move |
| JsonFields.Escape | app/main.cpp:1154-1162 | quotes and backslashes get a backslash in front |
| JsonFields.JsonStringField | app/main.cpp:1194-1210 | first occurrence of the key, then up to the next quote that is not escaped |
| JsonFields.StartsInside | app/main.cpp:1194-1198 | a printed string starts with the rest of the search text only if it is the key and a colon and a quote follow |
| JsonFields.FieldFound | app/main.cpp:1194-1210 | in every text of this kind the search returns the value of the field: no value can make up or straddle a field of its own |
| JsonFields.BuildMountJson | app/main.cpp:1153-1181 | the mount text, field by field |
| JsonFields.MountBack | app/main.cpp:1153-1210 | every field of the printed mount text is read back as printed |
| JsonFields.SessionJson | app/main.cpp:1343-1367 | the session text with the mount text inside |
| JsonFields.SessionBack | app/main.cpp:1343-1424 | both session fields and every field of the mount text inside are read back as printed |
| SessionRestore.Connection.TryRestore | app/main.cpp:1369-1426 | what is read from the session text into the form, field by field, each cut to its buffer; a text without server or building changes nothing |
| SessionRestore.MountByName | app/main.cpp:1153-1181 | each value of the form stands in the mount text under the key by which the server looks it up |
| SessionRestore.FormBack | app/main.cpp:1343-1426 | for every form: saved and restored, the kind and all texts of that kind come back except the branch, which stays what the form had, and the keys the server holds, which come back empty |
| SessionRestore.MountsAgain | app/main.cpp:1343-1426 | the restored form asks for the saved mount exactly when that was a local one, or the form already stands at the saved branch and marks no saved key as held |

## Left out

- ZlibReader.DoZlib: when a stream is malformed it may still be read if zero bytes behind its end complete it, as far as the reader lets itself run on; how many it may add is not stated.
- ZlibWriter.Compress: the 32-bit wrap of data_len + 32766 for inputs within 32766 bytes of the largest int, and allocation failure, are not modelled.
- PngImage.UnfilterImage: eight-bit samples and no added alpha channel; sixteen-bit and low-depth samples, interlacing, palettes and the final expansion are not modelled.
- PngImage.ImageRoundTrip: chunk framing, CRC and the vertical flip are not part of this model.
- RunLength.WriteScanline: starts behind the conversion of floats to four bytes a pixel; the four components are four sequences, not one interleaved buffer.
- TgaRows.ReadPixels: true-colour run-length images; headers, palettes, sixteen-bit pixels, the order of rows and the swap of red and blue are not modelled.
- SyncCodec.ReadVarint: lengths are unbounded integers, so the wrap of a machine word in the cursor is not modelled; the document library's encodings are taken by their laws, which SyncCodec.SomeEncoding shows can be met, and applying a decoded update is taken to succeed.
- SyncSystem.Converged: no connection closes and no broadcast receiver lags; a client that leaves takes its unsent edits with it. Changes made on the server itself are in `state.rs`, which is not part of this model.
- FloorFit.FitIsBest: over the reals, with square root, arc tangent, sine and cosine taken by their laws; rounding is not modelled.
- FloorPixels.MeasureMpp: the distance parameter is taken as a number, 0 when there is none.
- DeleteVertex.Level.Delete: parameters of edges and floors are one opaque value, which deletion does not look at.
- YamlStable.BuildingBack: the text scanner and emitter are not part of this model; numbers and truth values are taken by the law that what is printed is read back, which YamlTree.SomeScalars shows can be met; keys are strings, and integers and doubles are the 32 and 64 bits they are stored in. The scale snapshot that parsing ends with is computed from the rest; FloorPixels.SnapshotMpps has it.
- BundleRoundTrip.BundleReadsBack: the archive is a list of named entries and the manifest and yaml texts are taken by the law that what is printed is read back; names have no NUL character, since the zip library ends them there.
- EditHistory.History.Commit: the size of a snapshot is a parameter, because it counts capacities, which are not part of a map's value.
- FloodFill.RemoveWhiteBackground: sizes are natural numbers whose product is not bounded.
- EarClip.FillSimplePolygon: that a simple polygon always comes down to three points (the two-ears theorem) is not proved.
- TextureLoader.NothingStranded: until the stop flag; clearing the cache, and what a fetch or decode does beyond success or failure, are left out.
- JsonFields.SessionBack: strings without a NUL character; SessionRestore has the buffers.
- JPEG, GIF, PSD, PIC, BMP and PNM code, SIMD kernels and dynamic Huffman writing (the writer never does it).
- User interface, OpenGL, HTTP routing, storage back ends, the validator process and command line parsing.
- Id validators, notification queue, viewport transforms, formatters and MIME lookup would only add easy members.
