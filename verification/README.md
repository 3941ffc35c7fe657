# Verified models of the device's media, JSON and messaging core

This project models the parts of the repository where a wrong step is hard to
see by reading: the windowed M4A sample index and the streaming demuxer on top
of it, the cJSON parser, printers, minifier and list surgery, the byte pipeline
between download and player, the application message router, UPnP eventing, the
firmware pager and the CRC-32. Every model is Dafny 4.11; `dafny verify
dfyconfig.toml` checks all of it.

Code that changes state is modelled by methods and classes with the source's
fields, loops and branches, proved against functions on values; what the code
is for is then proved about those functions.

## What is proved, in short

- **M4A index** (`M4aIndex.dfy`, `M4aUnpacker.dfy`). After any sequence of
  refills the 100-entry size window and the 128-entry offset window agree with
  the flat tables of sections 8.7.3 to 8.7.5 of ISO/IEC 14496-12, and the look-up
  answers what those tables say.
- **Box parser** (`M4aBoxes.dfy`, `M4aDescriptors.dfy`, `M4aBoxParser.dfy`,
  `M4aOpen.dfy`). Every well-formed box tree is parsed to exactly its end with
  each table in its track, unless it has a sixth track or a sample description
  is refused; then the tracks hold what was read before.
- **Writing and reading back** (`M4aLayout.dfy`, `M4aWriter.dfy`,
  `M4aHeader.dfy`). A header written from any chunks of samples, runs and sample
  descriptions parses to tables that give back where every sample was put.
- **Demuxer** (`M4aStream.dfy`, `M4aSeek.dfy`, `M4aPlayer.dfy`, `M4aFormat.dfy`,
  `M4aExample.dfy`). However the file is cut, the codec receives header and bytes
  of exactly the samples that have arrived, and over a whole file all of them or
  none (`PlayFile`); seeks land on sample boundaries and streaming resumes there.
  A concrete header and runs with it show both cases.
- **Bit reader** (`M4aBits.dfy`). Reads are consecutive slices of one bit string.
- **cJSON** (`Json*.dfy`). `JsonSyntax.Doc` is the grammar of RFC 8259 with white
  space, escapes and number forms. The parser reads every such text, and rebuilds
  its tree unless a U+0000 or what a surrogate swallows is lost; it accepts just
  the texts of its own, laxer grammar; printed text is such a text, so parsing it
  gives the tree back; both printers give the same text within their buffers;
  minifying in place removes just white space and comments; the list operations
  are sequence edits on a doubly linked heap list.
- **Media bytes** (`MediaBuffer.dfy`, `MediaFraming.dfy`). The circular buffer is
  first in, first out under every interleaving, and loses no wake-up under two
  rules, each of which is needed; the messages decoded behind it carry the mp3
  stream without its ID3v2 tag.
- **Router, eventing, pager, checksum** (`AppFramework.dfy`, `UpnpEvents.dfy`,
  `OtaPager.dfy`, `Crc32.dfy`). In every run each application gets, in order, what
  was distributed for it; subscribers and notifications point at each other after
  every operation; the flash holds the padded image; the checksum is the CRC-32,
  residue and burst detection included.

## What the code does not promise

These are proved as they are, with the condition under which the expected
property does hold and a concrete input or run for which it does not.

- `FillStszTable`, called for the first sample of a window shorter than 100
  samples, steps past it (`FillTwice`); the refill never calls it so.
- A sample description whose esds box is refused stops the parse, and the tables
  behind it never reach their track (`ParseBoxes`, `ZeroLengthRefused`).
- A file none of whose pieces with a byte in them starts behind the header plays
  nothing: neither what the piece that completes the header brings along is sent
  at the end, nor anything when only empty pieces follow (`PlayFile`,
  `HeaderInLastPiece`).
- A header larger than the 512 KiB of the player's header buffer is never
  completed, and neither is a smaller one whose last part, filled up to 1024
  bytes, passes the end (`PlayFile`, `LastPartOverruns`); nothing of the file is
  sent. The check made before lets some headers that are too large through,
  because it adds the size of the first box only to the top byte of the second
  before the lower bytes are put in with a bitwise or (`CheckIsOr`,
  `TooLargeAccepted`, `HeaderTooLarge`).
- A backward seek made while whole samples are still unsent, as right after the
  header was completed, can miss the sample it should find (`FileSeek`,
  `SeekMisses`). A forward seek beyond the last sample's start leaves the sample
  number past the end, a backward one to or before the first start leaves it at
  -1, and a seek from there returns 0.
- An ADTS header carries its frame length only below 2^13, its profile only for
  the object types 1 to 4, and always a buffer fullness of 0x7CF, where 0x7FF was
  meant (`AdtsLengthRoundTrip`, `AdtsFieldsRead`, `FullnessMissesBits`).
- A track whose last sample entry is no MPEG-4 audio one is not an audio track,
  even if another entry is (`StsdRead`).
- A block comment whose text starts with a slash ends there for the minifier
  (`SlashComment`).
- A tag that ends in the last piece leaves the player without a stop, and one
  that fills the stream without any message (`FramedStream`, `TagEndsInLast`).
- Both threads of the buffer can sleep for good although one could go on: when a
  wait flag is set late, and also when every flag is prompt but the thread that
  fell asleep later takes the other one's token (`NoLostWakeUp`,
  `LateFlagSticks`, `StolenTokenSticks`).
- A high surrogate that is not followed by a low one takes the next `\u` escape
  with it, and `\u0000` is dropped, as a C string cannot hold it; text is lost
  exactly when such an escape starts a code point of its own or a pair, or is
  `\u0000` (`LiteralMeant`, `TextLost`).
- The parser takes more than RFC 8259 has: control characters as white space and
  in strings, a leading zero, missing digits behind a minus or in an exponent, a
  backslash before any character, four characters of any kind behind `\u`, and a
  string without its closing quote at the end of the text (`ValueAccepted`).
- With two applications of one name, only the one listed last gets named
  messages (`FirstOfName`).
- A notification whose subscriber was removed while it connected waits for a
  response instead of ending in error (`ProcessNotify`, `OrphanWaits`).
- An image that does not fit the area is cut off, and success is returned
  (`DataEnd`, `ByteLost`).

## Reading choices

- Plain `char` is unsigned, as on the ARM targets.
- A C string is the text left from a pointer on (`JsonText.CString`).
- A `\u` escape with a quote, a backslash or the end of the text among its four
  characters is the separate outcome `Undefined` of the string parser: the two
  passes can part there, and the second can read past the terminator. Four other
  characters that are not hexadecimal digits are read as the code reads them, as
  zero. An open string or comment is excluded from `Minify`.
- An mp4a entry and its esds box lie inside their stsd box as far as they are
  read; a decoder-specific part of length 0 counts as a successful allocation.
- The header buffer of the player is the file one: behind what was stored nothing
  can be read.
- The sample number and count of a new player, which the source leaves
  uninitialised, can be any numbers.
- A surrogate without its partner, for which RFC 8259 gives no meaning, means
  nothing by itself.
- Whether the decoder configuration found in a file can be parsed is a field of
  the player, `configOk`.
- A JSON number is kept as its digits and a power of ten.
- `(x | 0x80) & 0xBF` on a code point is written 0x80 + x mod 64, and the ors with
  a first-byte mark as sums; the decoder in `JsonStrings.Scalar` is independent of
  both.
- Results of the network, the flash, the semaphore and the socket calls are
  parameters or steps chosen freely.

## Model

| member | source | states |
|---|---|---|
| `M4aTables.ChunkUnique` | dueros/external/m4a-unpacker/lightduer_m4a_unpacker.c:273-316 | a sample lies in one chunk only, so "the chunk of a sample" read off the expanded sample-to-chunk table is well defined |
| `M4aTables.RunSteps` | dueros/external/m4a-unpacker/lightduer_m4a_unpacker.c:286-307 | inside one run of the sample-to-chunk table the first sample of a chunk is the run's first plus the chunks passed times the run's count: the fact the division in the look-up relies on |
| `M4aUnpacker.SwapIsBigEndian` | dueros/external/m4a-unpacker/lightduer_m4a_unpacker.c:36-41 | four bytes read in machine order and swapped on a little-endian machine are the big-endian value |
| `M4aUnpacker.Unpacker.ReadData` | dueros/external/m4a-unpacker/lightduer_m4a_util.c:24-33 | reads all the bytes asked for or none, and the position advances either way |
| `M4aUnpacker.Unpacker.ReadInt32` | dueros/external/m4a-unpacker/lightduer_m4a_util.c:62-72 | the big-endian word at the position, which advances by four whether or not the stream has a whole word left |
| `M4aUnpacker.Unpacker.GetSamplesNumber` | dueros/external/m4a-unpacker/lightduer_m4a_unpacker.c:226-241 | the total of the time-to-sample counts |
| `M4aUnpacker.Unpacker.RunOfSample` | dueros/external/m4a-unpacker/lightduer_m4a_unpacker.c:286-299 | stops at the run of the sample-to-chunk table whose samples enclose the one asked for |
| `M4aUnpacker.Unpacker.ChunkOfSample` | dueros/external/m4a-unpacker/lightduer_m4a_unpacker.c:273-316 | the current chunk becomes the one the expanded table gives for the sample, with its first sample and count |
| `M4aUnpacker.DestChunk` | dueros/external/m4a-unpacker/lightduer_m4a_unpacker.c:301-311 | dividing by the run's samples per chunk finds the chunk of the sample in the expanded table |
| `M4aUnpacker.Unpacker.MoveOffsetWindow` | dueros/external/m4a-unpacker/lightduer_m4a_unpacker.c:338-359 | the 128-entry window is reloaded so that it holds the chunk and agrees with the flat chunk-offset table; the stream position is put back |
| `M4aUnpacker.Unpacker.ChunkToOffset` | dueros/external/m4a-unpacker/lightduer_m4a_unpacker.c:318-362 | the flat table's offset for a chunk number in range, the last offset beyond it, 0 below it or for an empty table, whatever window was loaded |
| `M4aUnpacker.Unpacker.PassSubchunk` | dueros/external/m4a-unpacker/lightduer_m4a_unpacker.c:421-427 | the window's start moves behind the samples it held and its offset by their total size |
| `M4aUnpacker.Unpacker.NextSubchunk` | dueros/external/m4a-unpacker/lightduer_m4a_unpacker.c:420-455 | the window becomes the next min(100, rest of the chunk) samples of the flat size table and its offset the position of the first of them |
| `M4aUnpacker.Unpacker.Reposition` | dueros/external/m4a-unpacker/lightduer_m4a_unpacker.c:381-396 | outside the current chunk the window restarts, empty, at the first sample of the sample's chunk; before the window, at the first sample of the current chunk; otherwise it does not move |
| `M4aUnpacker.Unpacker.StepTo` | dueros/external/m4a-unpacker/lightduer_m4a_unpacker.c:417-455 | the counted steps bring the window to the sample, except that a call for the first sample of a window shorter than 100 steps past it; both directions |
| `M4aUnpacker.Unpacker.FillStszTable` | dueros/external/m4a-unpacker/lightduer_m4a_unpacker.c:364-472 | after any call for a sample in range the window agrees with the flat tables, and it holds the sample exactly when the window did not already start at it with fewer than 100 samples |
| `M4aUnpacker.Unpacker.FillTwice` | dueros/external/m4a-unpacker/lightduer_m4a_unpacker.c:364-472 | a failing run: filled twice for the first sample of a track of fewer than 100 samples, the window no longer holds it |
| `M4aUnpacker.Unpacker.RefillStszTable` | dueros/external/m4a-unpacker/lightduer_m4a_unpacker.c:474-493 | after any refill in range, forward, backward or jump, the window agrees with the flat tables and holds the sample; out of range, or when the window holds the sample already, nothing moves; the error code is as in the source |
| `M4aUnpacker.Unpacker.SampleRangeSize` | dueros/external/m4a-unpacker/lightduer_m4a_unpacker.c:495-516 | the total size of the samples from the window's start up to a sample of the window; for one behind the window the sum of what the size table was last filled with, and 0 before the window or past the track |
| `M4aUnpacker.Unpacker.AudioFrameSize` | dueros/external/m4a-unpacker/lightduer_m4a_unpacker.c:518-537 | the flat table's size of a sample in the window, and 0 for any other |
| `M4aUnpacker.Unpacker.GetSamplePositionAndSize` | dueros/external/m4a-unpacker/lightduer_m4a_unpacker.c:539-554 | for a sample in the window: its chunk's offset plus the sizes of the earlier samples of the chunk, and its size, both as the flat tables give them; size 0 for any other |
| `M4aUnpacker.CoveredPosition` | dueros/external/m4a-unpacker/lightduer_m4a_unpacker.c:539-554 | counting sizes from the window's start instead of the chunk's start gives the same position |
| `M4aLayout.PerChunkIs` | dueros/external/m4a-unpacker/lightduer_m4a_unpacker.c:286-307 | the run-length table that a writer makes of any list of chunks, expanded again, gives each chunk its own number of samples |
| `M4aLayout.PositionIs` | dueros/external/m4a-unpacker/lightduer_m4a_unpacker.c:539-554 | sample k of a chunk is found at the offset the chunk was put at, behind the k samples before it in that chunk |
| `M4aLayout.ChunksLaidOut` | dueros/external/m4a-unpacker/lightduer_m4a_unpacker.c:539-554 | so the tables made of any chunks, with a common sample size or without, lay every sample out where its chunk has it |
| `M4aBoxParser.BoxReadHeader` | dueros/external/m4a-unpacker/lightduer_m4a_box_parser.c:302-329 | type, header length and 32-bit or 64-bit size of the box at the position, which ends behind the header; 0 when no whole header is left |
| `M4aBoxParser.ReadStsz` | dueros/external/m4a-unpacker/lightduer_m4a_box_parser.c:331-360 | the common size, the count and where the size table starts go into the track |
| `M4aDescriptors.LengthRoundTrip` | dueros/external/m4a-unpacker/lightduer_m4a_util.c:120-133 | a descriptor length written in one to four bytes of seven bits is read back |
| `M4aDescriptors.EsdsAccepted` | dueros/external/m4a-unpacker/lightduer_m4a_box_parser.c:362-434 | an esds box written as ISO/IEC 14496-1 writes it, in any of the forms of its lengths, is accepted exactly when its ES descriptor is at least 20 and its decoder configuration at least 13 long |
| `M4aBoxParser.ReadDescrLength` | dueros/external/m4a-unpacker/lightduer_m4a_util.c:120-133 | the loop reads the length that the bytes of the payload stand for and ends behind them |
| `M4aBoxParser.ReadEsds` | dueros/external/m4a-unpacker/lightduer_m4a_box_parser.c:362-434 | an error exactly when the ES descriptor or the decoder configuration is too short or a tag is not the expected one |
| `M4aBoxParser.ReadMp4a` | dueros/external/m4a-unpacker/lightduer_m4a_box_parser.c:436-476 | an error exactly when the box behind the 28 bytes of fields is an esds one that is refused |
| `M4aBoxParser.ReadStsd` | dueros/external/m4a-unpacker/lightduer_m4a_box_parser.c:478-516 | steps over the sample entries by their sizes until one is refused, which is an error; the track is an audio track when the last entry read is an MPEG-4 audio one |
| `M4aBoxes.RefusedIsLast` | dueros/external/m4a-unpacker/lightduer_m4a_box_parser.c:866-874 | whatever stands behind a refused sample description inside a track, at whatever depth, never reaches the track |
| `M4aBoxes.ZeroLengthRefused` | dueros/external/m4a-unpacker/lightduer_m4a_box_parser.c:377-381 | a concrete sample description that is refused: one MPEG-4 audio entry whose ES descriptor has length 0 |
| `M4aBoxParser.ReadStsc` | dueros/external/m4a-unpacker/lightduer_m4a_box_parser.c:518-569 | the announced runs, as big-endian words |
| `M4aBoxParser.ReadStco` | dueros/external/m4a-unpacker/lightduer_m4a_box_parser.c:571-612 | the count, the table's place and its first 128 offsets |
| `M4aBoxParser.ReadStts` | dueros/external/m4a-unpacker/lightduer_m4a_box_parser.c:657-697 | the time-to-sample counts, kept from the first such box only |
| `M4aBoxParser.BoxRead` | dueros/external/m4a-unpacker/lightduer_m4a_box_parser.c:781-815 | a leaf goes into the current track, the position ends at the box's end wherever its reader stopped, and the error of a refused sample description is handed on |
| `M4aBoxParser.AddTrack` | dueros/external/m4a-unpacker/lightduer_m4a_box_parser.c:817-836 | a new empty track, or an error with nothing added when there are five |
| `M4aBoxParser.ParseSubBoxes` | dueros/external/m4a-unpacker/lightduer_m4a_box_parser.c:838-879 | for every well-formed box tree: terminates; without an error exactly when no sample description is refused and there is room for its tracks, and then it ends exactly at the end of the boxes with every table in the track of its enclosing trak box; otherwise an error, with what was read up to there in the tracks |
| `M4aBoxParser.ParseRootBox` | dueros/external/m4a-unpacker/lightduer_m4a_box_parser.c:887-905 | one top-level box: containers are parsed, their error handed on, leaves skipped, the position at the next box |
| `M4aBoxParser.ParseBoxes` | dueros/external/m4a-unpacker/lightduer_m4a_box_parser.c:881-907 | the tracks of the whole stream are those the box tree describes, one for each trak, in order, up to a refused sample description; an error exactly when there are more than five or a sample description is refused |
| `M4aWriter.StscRead` | dueros/external/m4a-unpacker/lightduer_m4a_box_parser.c:518-569 | runs written as rows of first chunk, samples per chunk and description are read back, each column into its place, for any number of them and any 32-bit values |
| `M4aWriter.SttsRead` | dueros/external/m4a-unpacker/lightduer_m4a_box_parser.c:657-697 | of rows of a count and a duration the counts are read back |
| `M4aWriter.StcoRead` | dueros/external/m4a-unpacker/lightduer_m4a_box_parser.c:571-612 | written chunk offsets: their count, where they stand and the first 128 of them are read back |
| `M4aWriter.StszRead` | dueros/external/m4a-unpacker/lightduer_m4a_box_parser.c:331-360 | a written common size and count are read back, and without a common size the sizes listed one by one stand where the track says |
| `M4aWriter.StsdRead` | dueros/external/m4a-unpacker/lightduer_m4a_box_parser.c:478-516 | of any written sample entries that are accepted all are passed, and the track is an audio track exactly when the last of them is an MPEG-4 audio one |
| `M4aWriter.AudioEntryAccepted` | dueros/external/m4a-unpacker/lightduer_m4a_box_parser.c:362-476 | an MPEG-4 audio entry with an esds box as ISO/IEC 14496-1 writes it, lengths in any of their forms, is accepted |
| `M4aHeader.HeaderRead` | dueros/external/m4a-unpacker/lightduer_m4a_box_parser.c:881-907 | a whole header, written from its parts as an ftyp box and a moov box with the tables below trak, mdia, minf and stbl boxes, parses to one track, which holds what each table was written from |
| `M4aHeader.TablesReadBack` | dueros/external/m4a-unpacker/lightduer_m4a_unpacker.c:364-472 | all tables of that track, read off the stream where the parser says they stand, are those made of the chunks |
| `M4aHeader.HeaderDescribes` | dueros/src/media-player/baidu_media_play_m4a.cpp:228-287 | what PlayFile asks of a header holds of every one that is written so, whatever its sample descriptions, runs, chunks, offsets and sizes: it describes the samples where the chunks have them |
| `M4aOpen.InsideLoaded` | dueros/external/m4a-unpacker/lightduer_m4a_box_parser.c:571-612 | whatever boxes a track has, at whatever depth, the chunk offsets in memory are the first ones of the table in the stream |
| `M4aOpen.TrackReady` | dueros/src/media-player/baidu_media_play_m4a.cpp:264-267 | a track taken from a parsed header starts with windows that agree with its flat tables |
| `M4aOpen.OpenUnpacker` | dueros/external/m4a-unpacker/lightduer_m4a_unpacker.c:43-55 | opening parses from the start of the stream and succeeds exactly when the tree describes at most five tracks and no sample description is refused; the tracks read have their offsets loaded |
| `M4aOpen.GetAacTrack` | dueros/external/m4a-unpacker/lightduer_m4a_unpacker.c:165-184 | the first audio track, or -1 when there is none |
| `M4aBits.ValueSplit` | dueros/external/m4a-unpacker/lightduer_m4a_input_bits.c:81-91 | reading n bits and then m bits is reading n+m bits: the two results put together are the longer slice |
| `M4aBits.ByteValue` | dueros/external/m4a-unpacker/lightduer_m4a_input_bits.c:24-40 | eight bits at a byte boundary are that byte, the most significant first |
| `M4aBits.BitContext.InitInputBits` | dueros/external/m4a-unpacker/lightduer_m4a_input_bits.c:109-143 | an empty buffer is refused; otherwise the reader stands at bit 0 |
| `M4aBits.BitContext.LoadWord` | dueros/external/m4a-unpacker/lightduer_m4a_input_bits.c:24-40 | the next 32 bits of the buffer, zeros behind its end |
| `M4aBits.BitContext.ShowBits` | dueros/external/m4a-unpacker/lightduer_m4a_input_bits.c:42-55 | the next 1 to 32 bits of the bit string, within one word or across two |
| `M4aBits.BitContext.FlushBits` | dueros/external/m4a-unpacker/lightduer_m4a_input_bits.c:57-78 | moves on by the given number of bits, loading the next word when the first is used up |
| `M4aBits.BitContext.GetBits` | dueros/external/m4a-unpacker/lightduer_m4a_input_bits.c:81-91 | the next n bits as a big-endian number for 1 to 32; any other count reads nothing |
| `M4aBits.BitContext.GetOneBit` | dueros/external/m4a-unpacker/lightduer_m4a_input_bits.c:93-106 | the next bit |
| `M4aBits.BitContext.GetProcessedBits` | dueros/external/m4a-unpacker/lightduer_m4a_input_bits.c:150-154 | the number of bits read so far |
| `M4aStream.AdtsLengthRoundTrip` | dueros/external/m4a-unpacker/lightduer_m4a_audio_specific_config.c:386-436 | the frame length read back from an ADTS header is the one written exactly when it fits 13 bits |
| `M4aStream.AdtsFieldsRead` | dueros/external/m4a-unpacker/lightduer_m4a_audio_specific_config.c:386-436 | the fields of every header, read as an ADTS reader does: syncword 0xFFF, layer 0, no protection, and profile, frequency index and channels of the configuration, each exactly when it fits its field |
| `M4aStream.AdtsDetermines` | dueros/external/m4a-unpacker/lightduer_m4a_audio_specific_config.c:386-436 | configurations that fit their fields and have equal headers are equal |
| `M4aStream.FullnessMissesBits` | dueros/external/m4a-unpacker/lightduer_m4a_audio_specific_config.c:428-432 | the buffer fullness of every header is 0x7CF instead of 0x7FF |
| `M4aStream.FramesReadBack` | dueros/external/m4a-unpacker/lightduer_m4a_audio_specific_config.c:386-436 | an ADTS reader that goes through what was sent, from header to header by the frame length, finds exactly the samples, each whole, exactly when all frames are shorter than 2^13 bytes |
| `M4aStream.PendingIsMaximal` | dueros/src/media-player/baidu_media_play_m4a.cpp:326-383 | the samples before the pending one are exactly those lying wholly below the file position |
| `M4aStream.CutIndependence` | dueros/src/media-player/baidu_media_play_m4a.cpp:110-131 | what is sent piece by piece for a list of cuts is what one piece up to the last cut would send |
| `M4aSeek.SeekLands` | dueros/src/media-player/baidu_media_play_m4a.cpp:432-446 | over all samples of the file the walk finds the least at or after the target exactly when it skipped none (the sample before the pending one starts before the target), and the greatest before the target exactly when it left none behind (the next one does not start before it); otherwise it stays; and when there is such a sample at all |
| `M4aSeek.StreamingSeeks` | dueros/src/media-player/baidu_media_play_m4a.cpp:432-446 | from the state streaming leaves behind no sample is skipped or left behind |
| `M4aSeek.SampleOneMissed` | dueros/src/media-player/baidu_media_play_m4a.cpp:432-446 | a concrete miss of the walk back: from sample 0, samples at 1100, 1200 and 1300, target 1250 |
| `M4aStream.NothingPending` | dueros/src/media-player/baidu_media_play_m4a.cpp:133-163 | at the end of the file every sample has arrived |
| `M4aPlayer.MediaPlayM4A.SendToCodec` | dueros/src/media-player/baidu_media_play_m4a.cpp:348-357 | a frame goes out whole, in order, in writes of 2048 bytes and a last one of at most that |
| `M4aPlayer.MediaPlayM4A.SendPending` | dueros/src/media-player/baidu_media_play_m4a.cpp:334-357 | header and bytes of the pending sample, cut out of the kept bytes and the piece |
| `M4aPlayer.MediaPlayM4A.SendFrames` | dueros/src/media-player/baidu_media_play_m4a.cpp:326-383 | sends exactly the frames of the samples that have arrived in full and keeps what has arrived of the next |
| `M4aPlayer.MediaPlayM4A.FrameToCodec` | dueros/src/media-player/baidu_media_play_m4a.cpp:289-388 | after the call the codec has the frames of the maximal prefix of samples below the file position, and the kept bytes are the file from the pending sample to the position |
| `M4aPlayer.MediaPlayM4A.PlayData` | dueros/src/media-player/baidu_media_play_m4a.cpp:110-131 | keeps, piece by piece, that all samples from where streaming (re)started up to the pending one were sent and nothing else; nothing at all when the header was refused |
| `M4aPlayer.MediaPlayM4A.FileSeek` | dueros/src/media-player/baidu_media_play_m4a.cpp:413-452 | for every target and position: the sample reached is the least at or after the target, or the greatest before it, exactly when none was skipped or left behind, which always holds while streaming; the position is that sample's offset; streaming can restart there although the kept bytes are stale |
| `M4aPlayer.MediaPlayM4A.HeaderSave` | dueros/src/media-player/baidu_media_play_m4a.cpp:165-226 | the header part of a piece is stored, filled up with zeros below 1024 bytes, and the rest kept; an error, with nothing stored, when the 512 KiB buffer has no room for it |
| `M4aPlayer.MediaPlayM4A.HeaderParse` | dueros/src/media-player/baidu_media_play_m4a.cpp:228-287 | a complete header is parsed, its first audio track opened and the window filled for sample 0; an error exactly when it does not open, has no audio track, or its decoder configuration cannot be parsed |
| `M4aPlayer.MediaPlayM4A.FileStart` | dueros/src/media-player/baidu_media_play_m4a.cpp:74-108 | the two leading boxes give the header length; the header bytes of the piece are taken; short files and files without ftyp and moov in front are refused; a header larger than its buffer can never be completed |
| `M4aPlayer.MediaPlayM4A.FilePlay` | dueros/src/media-player/baidu_media_play_m4a.cpp:110-131 | collects the header until it is complete, then streams; an error for a header that is refused, and nothing is sent after it; once the buffer has no room for the rest of the header, whatever comes leaves it incomplete and nothing is sent |
| `M4aPlayer.MediaPlayM4A.FileEnd` | dueros/src/media-player/baidu_media_play_m4a.cpp:133-163 | when the file ends all samples from the base on have been sent exactly if the header was complete before and the last piece has bytes or no sample is pending; otherwise nothing; a header completed by the last piece sends nothing; an error exactly when header bytes find no room or complete a header that is refused |
| `M4aPlayer.MediaPlayM4A.PlayMiddle` | dueros/src/media-player/baidu_media_play_m4a.cpp:110-131 | any list of pieces sends what the cuts between them say, sample by sample, and leaves the maximal arrived prefix sent |
| `M4aPlayer.MediaPlayM4A.PlayOut` | dueros/src/media-player/baidu_media_play_m4a.cpp:110-163 | the rest of a file from any point while streaming, a seek included: all frames from the base on exactly when some piece has a byte or no sample is pending, else nothing |
| `M4aPlayer.MediaPlayM4A.PlayFile` | dueros/src/media-player/baidu_media_play_m4a.cpp:74-163 | a whole file in any pieces, first to last: the codec gets exactly the frames of all samples if the header describes a track to play, the piece that completes it finds room in the header buffer, and some piece with a byte starts behind the header; and nothing otherwise |
| `M4aPlayer.MediaPlayM4A.NoRoomNoStore` | dueros/src/media-player/baidu_media_play_m4a.cpp:177-208 | once the buffer has no room for the rest of the header, no pieces complete it |
| `M4aPlayer.MediaPlayM4A.EqualPieces` | dueros/src/media-player/baidu_media_play_m4a.cpp:177-208 | in pieces of one size a header finds room exactly when its last part, filled up, does |
| `M4aPlayer.MediaPlayM4A.FramesFindRoom` | dueros/src/media-player/baidu_media_play_m4a.cpp:177-208 | in pieces of 1024 bytes, the size of the download, exactly when it is at most 512 KiB |
| `M4aPlayer.MediaPlayM4A.LastPartOverruns` | dueros/src/media-player/baidu_media_play_m4a.cpp:177-208 | a concrete header below 512 KiB that finds no room: 524200 bytes in pieces of 1460 |
| `M4aPlayer.OpenTrack` | dueros/src/media-player/baidu_media_play_m4a.cpp:231-275 | a described header with an audio track opens to a track whose index answers and whose window holds sample 0; an error otherwise |
| `M4aPlayer.DescribesPadded` | dueros/src/media-player/baidu_media_play_m4a.cpp:180-196 | zeros stored behind a header do not change what it describes |
| `M4aExample.ExampleDescribes` | dueros/src/media-player/baidu_media_play_m4a.cpp:228-287 | a concrete header, of any length from 292 bytes on, with three samples at any place behind it |
| `M4aExample.WholeFilePlays` | dueros/src/media-player/baidu_media_play_m4a.cpp:74-163 | a run of such a file of 3000 bytes in three pieces: all three frames are sent |
| `M4aExample.HeaderInLastPiece` | dueros/src/media-player/baidu_media_play_m4a.cpp:136-150 | a run in which the last of two pieces completes a header of 2000 bytes: nothing is sent |
| `M4aExample.HeaderTooLarge` | dueros/src/media-player/baidu_media_play_m4a.cpp:190-206 | every run of a file with an ftyp box of 24 and a moov box of 524280 bytes: however it is cut, nothing is sent |
| `M4aExample.SeekMisses` | dueros/src/media-player/baidu_media_play_m4a.cpp:413-452 | a run in which the first piece brings header and samples along and a seek back to 1250 stays at the sample at 1100, though the next starts at 1200 |
| `M4aFormat.CheckIsOr` | dueros/src/media-data-manager/baidu_media_data_manager.cpp:200-205 | the size check made before the player is started compares the bitwise or of both box sizes with the limit |
| `M4aFormat.RefusedIsTooLarge` | dueros/src/media-data-manager/baidu_media_data_manager.cpp:200-205 | so what it refuses is too large |
| `M4aFormat.DisjointIsExact` | dueros/src/media-data-manager/baidu_media_data_manager.cpp:200-205 | and what it accepts is small enough when the two sizes have no bit in common |
| `M4aFormat.TooLargeAccepted` | dueros/src/media-data-manager/baidu_media_data_manager.cpp:200-205 | a concrete header of 524304 bytes that it accepts |
| `JsonStrings.Utf8Correct` | dueros/external/cjson/cJSON.c:232-239 | the bytes written for a code point are its UTF-8 form and its only one (both directions, against a decoder by the table of section 3 of RFC 3629) |
| `JsonStrings.PassesAgree` | dueros/external/cjson/cJSON.c:200-247 | for every literal with whole escapes the second pass ends at the quote the first pass found and writes at most the length it counted |
| `JsonStrings.StepFits` | dueros/external/cjson/cJSON.c:207-243 | each character or escape keeps the closing quote and fits what was counted for it |
| `JsonStrings.WriteUtf8` | dueros/external/cjson/cJSON.c:232-240 | last byte first, the UTF-8 form is appended |
| `JsonStrings.ParseUnit` | dueros/external/cjson/cJSON.c:218-241 | a \u escape, alone or as the first of a pair, is appended as UTF-8 or dropped, and the pointer moves behind it |
| `JsonStrings.CountLength` | dueros/external/cjson/cJSON.c:200 | the first pass: the counted length, for every literal whose \u escapes have four characters inside it, hexadecimal or not |
| `JsonStrings.DecodeInto` | dueros/external/cjson/cJSON.c:205-247 | the second pass stays in a buffer of the counted length and leaves the decoded string and its terminator |
| `JsonStrings.ParseString` | dueros/external/cjson/cJSON.c:195-252 | both passes together: the decoded string and the text behind the closing quote, failure on a missing opening quote |
| `JsonStrings.ShortEscapesAre` | dueros/external/cjson/cJSON.c:213-217 | what the letters behind a backslash stand for |
| `JsonStrings.HexValueIs` | dueros/external/cjson/cJSON.c:180-193 | a character is the hexadecimal digit d exactly when it is the one of its digit or its two letters |
| `JsonParser.SkipBlanks` | dueros/external/cjson/cJSON.c:323 | stops at the first character above the space |
| `JsonParser.ParseNumber` | dueros/external/cjson/cJSON.c:97-118 | sign, digits, fraction and exponent of every text as digits and a power of ten |
| `JsonParser.ParseValue` | dueros/external/cjson/cJSON.c:360-372 | result and failure place for every text |
| `JsonParser.ParseArray` | dueros/external/cjson/cJSON.c:409-434 | the loop over commas builds the items in order |
| `JsonParser.ParseObject` | dueros/external/cjson/cJSON.c:517-550 | the loop over commas builds the members in order, each with its name |
| `JsonParser.ParseWithOpts` | dueros/external/cjson/cJSON.c:326-340 | white space, one value, and on request the end of the text |
| `JsonSyntax.DigitsRead` | dueros/external/cjson/cJSON.c:103-104 | digit-by-digit accumulation is the positional value |
| `JsonSyntax.NumeralRead` | dueros/external/cjson/cJSON.c:97-118 | every number, of RFC 8259 or as lax as the parser takes them, is read to its end with its value, whatever follows that does not continue it |
| `JsonSyntax.LiteralRead` | dueros/external/cjson/cJSON.c:207-246 | every string literal, of RFC 8259 or as lax as the parser takes them, is decoded up to its closing quote or the end of the text, and to what: short escapes, UTF-16 units and surrogate pairs, U+0000 and unpaired surrogates dropped, a high surrogate taking a following unit with it |
| `JsonSyntax.MeaningKept` | dueros/external/cjson/cJSON.c:224-231 | that reading is what the standard means, U+0000 included, exactly when the literal writes no \u0000 and no high surrogate takes a unit that is not its partner and starts text, a code point of its own or a pair; otherwise text is missing |
| `JsonSyntax.LiteralMeant` | dueros/external/cjson/cJSON.c:207-246 | the code decodes a literal to what the standard means exactly under that condition |
| `JsonSyntax.PairedKept` | dueros/external/cjson/cJSON.c:224-231 | in particular whenever no unit is zero and every high surrogate is followed by its partner |
| `JsonSyntax.TextLost` | dueros/external/cjson/cJSON.c:218-231 | three concrete losses: \uD800\u0041 decodes to nothing, and so do \uD800\uD801\uDC00 and \u0000 |
| `JsonSyntax.DocRead` | dueros/external/cjson/cJSON.c:360-372 | the parser reads every document of its grammar, which holds that of RFC 8259, to its end and builds its tree, whatever follows that does not continue it |
| `JsonSyntax.ItemsRead` | dueros/external/cjson/cJSON.c:409-434 | the same for the items of an array with any white space |
| `JsonSyntax.MembersRead` | dueros/external/cjson/cJSON.c:517-550 | the same for the members of an object with any white space |
| `JsonSyntax.TreeMeant` | dueros/external/cjson/cJSON.c:360-372 | the tree built is the one the standard means exactly when no string and no name in the document loses text |
| `JsonSyntax.ParseReadsEveryText` | dueros/external/cjson/cJSON.c:326-342 | cJSON_Parse reads every text of RFC 8259 with nothing left over, and rebuilds the tree the standard means by it exactly when no string and no name in it loses text |
| `JsonAccepted.ValueAccepted` | dueros/external/cjson/cJSON.c:360-372 | the parser accepts nothing else: it returns a tree and a rest exactly when the text is that of a document of its grammar for that tree, then the rest; in that grammar white space is everything up to the space, a number may start with one zero or lack digits behind its minus or exponent, a backslash may stand before any character, and a string at the very end may lack its quote |
| `JsonAccepted.TextAccepted` | dueros/external/cjson/cJSON.c:326-340 | the same for cJSON_ParseWithOpts: white space, such a value, and on request nothing but white space behind it |
| `JsonAccepted.ArraysRefused` | dueros/external/cjson/cJSON.c:409-434 | [1}, [1 2] and [1,] are refused at the brace, at the 2 and at the bracket |
| `JsonAccepted.ObjectsRefused` | dueros/external/cjson/cJSON.c:517-550 | {1}, {"a" 1} and {"a":1] are refused at the 1, at the 1 and at the bracket |
| `JsonAccepted.TrailingRefused` | dueros/external/cjson/cJSON.c:337 | 1 2 is refused at the 2 when the end of the text is demanded, and read as 1 otherwise |
| `JsonRoundTrip.DecimalMeans` | dueros/external/cjson/cJSON.c:160-165 | decimal text has no leading zero and the positional value of its number |
| `JsonRoundTrip.StringMeans` | dueros/external/cjson/cJSON.c:255-310 | the escaped text of a string is a literal that the code reads as the string and that means it |
| `JsonRoundTrip.LaidMeans` | dueros/external/cjson/cJSON.c:375-406 | the printed layout of a tree is a well-formed document that the code reads as the tree and that means it |
| `JsonRoundTrip.LaidText` | dueros/external/cjson/cJSON.c:437-661 | the printed text, plain or formatted, is the text of that document |
| `JsonRoundTrip.RoundTrip` | dueros/external/cjson/cJSON.c:342-346 | parsing the formatted or unformatted text of any tree with 32-bit integers and NUL-free strings gives the tree back, to the end of the text |
| `JsonRoundTrip.TextDetermines` | dueros/external/cjson/cJSON.c:345-346 | different trees never print alike |
| `JsonText.EscapesAre` | dueros/external/cjson/cJSON.c:286-305 | seven characters have a short escape, the other control characters one of four lower-case hexadecimal digits, and every other character stands for itself |
| `JsonText.LayoutShown` | dueros/external/cjson/cJSON.c:437-661 | the layouts of an array and of an object that holds an empty one, plain and formatted, character by character |
| `JsonPrinter.NumberFits` | dueros/external/cjson/cJSON.c:160-165 | 21 bytes hold every 32-bit integer and the terminator |
| `JsonPrinter.StringLength` | dueros/external/cjson/cJSON.c:259-283 | the length found is that of the escaped text, and without the flag there is nothing to escape |
| `JsonPrinter.WriteString` | dueros/external/cjson/cJSON.c:259-309 | the quoted, escaped text and its terminator in the room asked for |
| `JsonPrinter.PrintString` | dueros/external/cjson/cJSON.c:255-310 | the text of a string from a buffer of the computed length |
| `JsonPrinter.PrintValue` | dueros/external/cjson/cJSON.c:375-406 | the text of any tree at any depth, plain or formatted |
| `JsonPrinter.PrintArray` | dueros/external/cjson/cJSON.c:437-514 | the array's text, composed in a buffer of the estimated length |
| `JsonPrinter.PrintObject` | dueros/external/cjson/cJSON.c:553-661 | the object's text, composed in a buffer of the estimated length |
| `JsonPrinter.EstimateEnough` | dueros/external/cjson/cJSON.c:480-489 | the array estimate is never exceeded |
| `JsonPrinter.ComposeFits` | dueros/external/cjson/cJSON.c:622-658 | the object estimate is never exceeded |
| `JsonPrinter.JoinedIsText` | dueros/external/cjson/cJSON.c:502-511 | joining the children's texts with separators is the array's text |
| `JsonPrinter.RowsAreText` | dueros/external/cjson/cJSON.c:644-658 | rows of tabs, name, value and separators are the object's text |
| `JsonPrintBuffer.Pow2gtRounds` | dueros/external/cjson/cJSON.c:120 | or-ing a number with its shifts rounds up to the least power of two |
| `JsonPrintBuffer.PrintBuffer.Ensure` | dueros/external/cjson/cJSON.c:124-139 | room for the bytes asked for, and all that was printed is kept |
| `JsonPrintBuffer.PrintBuffer.Update` | dueros/external/cjson/cJSON.c:141-147 | the offset of the terminator of the text just printed |
| `JsonPrintBuffer.PrintBuffer.PrintValue` | dueros/external/cjson/cJSON.c:375-406 | the same text as the other printer, terminated behind what was printed before |
| `JsonPrintBuffer.PrintBuffer.PrintArray` | dueros/external/cjson/cJSON.c:446-471 | the array's text, grown piece by piece |
| `JsonPrintBuffer.PrintBuffer.PrintObject` | dueros/external/cjson/cJSON.c:562-610 | the object's text, grown piece by piece |
| `JsonPrintBuffer.PrintBuffered` | dueros/external/cjson/cJSON.c:348-356 | for every tree whose text stays below 2^30 - 32 bytes, behind which the rounding to a power of two overflows, every format and positive starting size: the text of cJSON_Print or cJSON_PrintUnformatted |
| `JsonMinify.DocBecomes` | dueros/external/cjson/cJSON.c:744-759 | minifying the text of a document of RFC 8259 with comments wherever it may have white space gives the text of the document without either |
| `JsonMinify.LaidStripped` | dueros/external/cjson/cJSON.c:744-759 | a formatted document without white space is the unformatted one |
| `JsonMinify.MinifyUndoesFormatting` | dueros/external/cjson/cJSON.c:744-759 | minifying the formatted text of any tree gives its unformatted text |
| `JsonMinify.MinifiedParses` | dueros/external/cjson/cJSON.c:744-759 | so any text of the standard with comments in its white space can be parsed once it is minified, and gives its tree |
| `JsonMinify.BlankBecomes` | dueros/external/cjson/cJSON.c:749-754 | any white space and comments, to the end of a line or between slash-star and star-slash, are dropped |
| `JsonMinify.SlashComment` | dueros/external/cjson/cJSON.c:754 | a block comment is passed as a whole exactly when its text does not start with a slash; otherwise slash-star-slash is taken for all of it |
| `JsonMinify.QuotedBecomes` | dueros/external/cjson/cJSON.c:755 | a string literal is kept as it is, whatever characters and escapes it holds |
| `JsonMinify.CharBecomes` | dueros/external/cjson/cJSON.c:756 | every other character outside a string, but for a slash, is kept |
| `JsonMinify.SlashBecomes` | dueros/external/cjson/cJSON.c:753-756 | and so is a slash that starts no comment |
| `JsonMinify.CopyString` | dueros/external/cjson/cJSON.c:755 | a string literal is kept whole, a quote behind a backslash included |
| `JsonMinify.SkipLine` | dueros/external/cjson/cJSON.c:753 | a line comment is passed to the end of its line |
| `JsonMinify.SkipBlock` | dueros/external/cjson/cJSON.c:754 | a closed block comment is passed |
| `JsonMinify.Minify` | dueros/external/cjson/cJSON.c:744-759 | in place, the write cursor never overtaking the read cursor, the buffer becomes the minified text of what it held |
| `JsonList.ChildrenUnique` | dueros/external/cjson/cJSON.c:664-665 | the chain from the child pointer reads as one sequence only: it has no cycle and reaches every child |
| `JsonList.GetArraySize` | dueros/external/cjson/cJSON.c:664 | the number of children |
| `JsonList.GetArrayItem` | dueros/external/cjson/cJSON.c:665 | the child at an index, the first for a negative one, none beyond the end |
| `JsonList.AddItemToArray` | dueros/external/cjson/cJSON.c:675-680 | appends to the chain |
| `JsonList.DetachItemFromArray` | dueros/external/cjson/cJSON.c:686-687 | removes the child at an index and unlinks it; nothing for an index beyond the end |
| `JsonList.InsertItemInArray` | dueros/external/cjson/cJSON.c:693-694 | inserts before the child at an index, appends beyond the end |
| `JsonList.ReplaceItemInArray` | dueros/external/cjson/cJSON.c:695-697 | puts the new item where the child at an index was and unlinks that; nothing beyond the end |
| `JsonList.EditsUndo` | dueros/external/cjson/cJSON.c:686-697 | inserting and detaching at an index undo each other, and replacing is both |
| `Crc32.TableCorrect` | deepbrain/components/sdk_interfaces/crc_interface.cpp:5-39 | every table entry is eight steps of bitwise division by the polynomial |
| `Crc32.TableStep` | deepbrain/components/sdk_interfaces/crc_interface.cpp:45-47 | one table look-up does a byte's worth of division |
| `Crc32.CryptoCrc32` | deepbrain/components/sdk_interfaces/crc_interface.cpp:41-49 | the loop computes the CRC-32 of section 8 of RFC 1952, bit by bit, for every buffer and starting value |
| `Crc32.CrcContinues` | deepbrain/components/sdk_interfaces/crc_interface.cpp:41-49 | a checksum continued over a second buffer is that of the two joined |
| `Crc32.RemainderInjective` | deepbrain/components/sdk_interfaces/crc_interface.cpp:45-47 | the same bytes keep different registers different |
| `Crc32.FourBytesInjective` | deepbrain/components/sdk_interfaces/crc_interface.cpp:45-47 | different words of four bytes leave different remainders |
| `Crc32.BurstDetected` | deepbrain/components/sdk_interfaces/crc_interface.cpp:41-49 | two equally long buffers that differ only inside four consecutive bytes never have the same checksum |
| `Crc32.EmptyCrc` | deepbrain/components/sdk_interfaces/crc_interface.cpp:44-48 | no bytes leave a checksum as it is |
| `Crc32.Residue` | deepbrain/components/sdk_interfaces/crc_interface.cpp:41-49 | the checksum of any buffer with its own checksum behind it, lowest byte first, is the constant of the CRC-32, 0x2144DF1C, whatever the starting value |
| `Crc32.CheckValue` | deepbrain/components/sdk_interfaces/crc_interface.cpp:41-49 | the check value of the catalogues: "123456789" has the checksum 0xCBF43926 |
| `MediaBuffer.RingAppended` | dueros/src/media-player/baidu_media_play_buffer.cpp:44-52 | data laid behind the end of the ring, around the memory's end if need be, is appended to the contents |
| `MediaBuffer.RingTaken` | dueros/src/media-player/baidu_media_play_buffer.cpp:89-100 | the bytes read from the start are the oldest; the rest stays, and start meets end exactly when all was read |
| `MediaBuffer.MediaPlayBuffer.TryWrite` | dueros/src/media-player/baidu_media_play_buffer.cpp:33-62 | the locked section of write: all the data is appended and a waiting thread released, or nothing changes; -1/-1 is empty and start == end full |
| `MediaBuffer.MediaPlayBuffer.TryRead` | dueros/src/media-player/baidu_media_play_buffer.cpp:79-107 | the locked section of read: the oldest bytes are taken, or nothing changes |
| `MediaBuffer.MediaPlayBuffer.Clear` | dueros/src/media-player/baidu_media_play_buffer.cpp:121-130 | empties the buffer and releases a waiting thread |
| `MediaBuffer.StepKeepsFifo` | dueros/src/media-player/baidu_media_play_buffer.cpp:27-119 | every step of either thread keeps: bytes read, then bytes buffered, are the bytes written |
| `MediaBuffer.FifoUnderInterleaving` | dueros/src/media-player/baidu_media_play_buffer.cpp:27-119 | first in, first out in every interleaving of a writer and a reader, spurious wake-ups included |
| `MediaBuffer.NoLostWakeUp` | dueros/src/media-player/baidu_media_play_buffer.cpp:54-67 | in every run in which a failed thread sets its flag at once and, while both sleep, a token goes to the one that has slept longer: a thread that sleeps without a token could not go on, and both sleep for good only if chunk and piece together exceed the buffer and one byte |
| `MediaBuffer.LateFlagSticks` | dueros/src/media-player/baidu_media_play_buffer.cpp:64-67 | a run in which only the flag comes late: both threads sleep although the next write would fit |
| `MediaBuffer.StolenTokenSticks` | dueros/src/media-player/baidu_media_play_buffer.cpp:102-116 | a run in which every flag is prompt but the reader takes the token it released for the writer: the same end |
| `MediaFraming.DataHandler.MediaDataOut` | dueros/src/media-data-manager/baidu_media_data_manager.cpp:279-391 | one call: error codes, the tag bytes still to skip, and the message and payload handed to the buffer |
| `MediaFraming.TagLengthOfSize` | dueros/src/media-data-manager/baidu_media_data_manager.cpp:232-265 | the header of a tag whose size is written with seven bits a byte is recognised, and its length is that size plus the headers |
| `MediaFraming.TagExactly` | dueros/src/media-data-manager/baidu_media_data_manager.cpp:228-265 | a tag is skipped exactly from an mp3 stream whose first piece is longer than ten bytes and starts with the letters ID3, two version bytes other than 0xff, a flags byte and a size of four bytes below 0x80 |
| `MediaFraming.UntaggedWhole` | dueros/src/media-data-manager/baidu_media_data_manager.cpp:228-391 | so a stream that does not start with the letters ID3, or is no mp3, reaches the player whole and with start, continues and stop |
| `MediaFraming.FramesAlike` | dueros/src/media-data-manager/baidu_media_data_manager.cpp:279-391 | every frame of a download has the type of its source, speech being mp3, and its flags |
| `MediaFraming.SentWhole` | dueros/src/media-data-manager/baidu_media_data_manager.cpp:381-390 | behind the tag every piece is sent whole, as continues and a stop |
| `MediaFraming.SentBehindTag` | dueros/src/media-data-manager/baidu_media_data_manager.cpp:369-390 | while tag bytes are to be skipped nothing is sent; the first piece behind them starts the player |
| `MediaFraming.FramedStream` | dueros/src/media-data-manager/baidu_media_data_manager.cpp:279-391 | for every split the payloads are the stream without its tag, and the commands are start, continues, stop exactly when the tag ends before the last piece |
| `MediaFraming.TagEndsInLast` | dueros/src/media-data-manager/baidu_media_data_manager.cpp:369-390 | a concrete stream without a stop: a tag of twenty bytes, nine of them in the last piece |
| `MediaFraming.DecodeChunks` | dueros/src/media-player/baidu_media_play.cpp:156-170 | the bytes of the messages decode to the messages |
| `MediaFraming.CodesTell` | dueros/src/media-player/baidu_media_play.cpp:156-170 | commands and media types keep their codes apart |
| `MediaFraming.MessagesTell` | dueros/src/media-player/baidu_media_play.cpp:156-170 | so the messages decoded determine commands, types and payloads |
| `MediaFraming.ReadMessage` | dueros/src/media-player/baidu_media_play.cpp:156-170 | the message at the front of the buffer, or an error when its size exceeds a frame |
| `MediaFraming.StreamEndToEnd` | dueros/src/media-player/baidu_media_play.cpp:156-170 | from pieces to the messages the player decodes, whatever the interleaving of the two threads |
| `AppFramework.DeliveredTo` | deepbrain/components/app_framework/app_framework.cpp:283-322 | with distinct names exactly the addressed applications are given a message |
| `AppFramework.FirstOfName` | deepbrain/components/app_framework/app_framework.cpp:307-318 | without distinct names only the application listed last of a name is given its messages |
| `AppFramework.SameBase` | deepbrain/components/app_framework/app_framework.cpp:219-281 | the 256 events of one base, and no others, have the callbacks of that base |
| `AppFramework.Name` | deepbrain/components/app_framework/app_framework.cpp:617-618 | a name is cut to its first 31 characters |
| `AppFramework.ExpectedInOrder` | deepbrain/components/app_framework/app_framework.cpp:177-245 | what an application is due is a subsequence, in order and without repetition, of what was distributed |
| `AppFramework.StepKeepsRouting` | deepbrain/components/app_framework/app_framework.cpp:406-462 | sending, distributing, joining, leaving and processing keep that invariant |
| `AppFramework.RoutingOverRuns` | deepbrain/components/app_framework/app_framework.cpp:406-462 | in every run no message is lost before its distribution, and messages taken, then queued, are in order those distributed while the application was listed that named it or came to all from another |
| `AppFramework.Framework.AppNew` | deepbrain/components/app_framework/app_framework.cpp:330-380 | main once, others at the head of the list, and only after main |
| `AppFramework.Framework.AppDelete` | deepbrain/components/app_framework/app_framework.cpp:382-404 | leaves the list with its queue |
| `AppFramework.Framework.SendMessage` | deepbrain/components/app_framework/app_framework.cpp:582-621 | the message joins the main queue, names cut to their fields; refused without a main application |
| `AppFramework.Framework.DistributeOne` | deepbrain/components/app_framework/app_framework.cpp:283-322 | takes the oldest message and delivers it to all but its sender, or to the first of its name |
| `AppFramework.Framework.ProcessOne` | deepbrain/components/app_framework/app_framework.cpp:219-281 | takes the application's oldest message, handled exactly when its event has a callback |
| `UpnpEvents.SeqBumped` | dueros/src/miniupnp-render/upnpevents.c:434-439 | SEQ is 0 only before the first acknowledgement, counts up, and wraps from the largest 32-bit value to 1 |
| `UpnpEvents.SeqCounts` | dueros/src/miniupnp-render/upnpevents.c:434-439 | up to 2^32 - 1 SEQ is the number of acknowledgements, from then on it repeats without the 0, and it never stays the same |
| `UpnpEvents.Eventing.PointersAgree` | dueros/src/miniupnp-render/upnpevents.c:195-284 | what the invariant that every method below keeps says of pointers: a listed subscriber points at a listed notification exactly when that points back |
| `UpnpEvents.Eventing.OneNotify` | dueros/src/miniupnp-render/upnpevents.c:231-238 | and of numbers: at most one notification of a subscription is under way |
| `UpnpEvents.Eventing.AddSubscriber` | dueros/src/miniupnp-render/upnpevents.c:136-178 | the first subscriber of the service whose callback starts with the given one is kept, otherwise a new one heads the list with SEQ 0, and none when the callback is empty |
| `UpnpEvents.Eventing.Renew` | dueros/src/miniupnp-render/upnpevents.c:181-193 | sets the timeout of the first subscriber of that id and no other; -1 when there is none |
| `UpnpEvents.Eventing.RemoveSubscriber` | dueros/src/miniupnp-render/upnpevents.c:195-218 | takes the first subscriber of that id off the list; exactly its notification no longer points at a subscriber |
| `UpnpEvents.Eventing.RemoveSubscribers` | dueros/src/miniupnp-render/upnpevents.c:220-228 | empties the list; no notification points at a subscriber any more |
| `UpnpEvents.Eventing.CreateNotify` | dueros/src/miniupnp-render/upnpevents.c:241-284 | a new notification and its subscriber point at each other, or nothing changes without a socket |
| `UpnpEvents.Eventing.VarChangeNotify` | dueros/src/miniupnp-render/upnpevents.c:230-238 | exactly the idle subscribers of the service get a notification |
| `UpnpEvents.Eventing.NotifyConnect` | dueros/src/miniupnp-render/upnpevents.c:286-348 | connects for a live subscriber; fails at once without one |
| `UpnpEvents.Eventing.Prepare` | dueros/src/miniupnp-render/upnpevents.c:350-398 | the path is followed only while the subscriber is there, into its own callback, the message carries its SEQ, and its text is there for the AV transport service only |
| `UpnpEvents.Eventing.SendAll` | dueros/src/miniupnp-render/upnpevents.c:400-418 | ends waiting for the response exactly when all was sent, in error otherwise |
| `UpnpEvents.Eventing.Receive` | dueros/src/miniupnp-render/upnpevents.c:420-440 | a response finishes the notification and counts one acknowledgement for its subscriber only |
| `UpnpEvents.Eventing.ProcessNotify` | dueros/src/miniupnp-render/upnpevents.c:442-467 | one step by state; a notification whose subscriber went away while it connected is not in error afterwards but waits for a response |
| `UpnpEvents.OrphanWaits` | dueros/src/miniupnp-render/upnpevents.c:442-467 | a run of it: subscribed, connecting, unsubscribed, and then waiting for a response |
| `UpnpEvents.Eventing.SelectFds` | dueros/src/miniupnp-render/upnpevents.c:469-506 | every new notification with a socket is connecting when it has a subscriber and connect succeeds, and in error otherwise; the others do not move |
| `UpnpEvents.Eventing.RetireAll` | dueros/src/miniupnp-render/upnpevents.c:525-554 | exactly the notifications that are over are freed, and their subscribers are idle again |
| `UpnpEvents.Eventing.Expire` | dueros/src/miniupnp-render/upnpevents.c:556-570 | exactly the idle subscribers whose time is up are dropped |
| `UpnpEvents.Eventing.ProcessFds` | dueros/src/miniupnp-render/upnpevents.c:508-571 | the graph invariant survives a round: those with a ready socket make one step, the others none, exactly those that are over are freed, at most one acknowledgement each |
| `OtaPager.Updater.DataStart` | deepbrain/apps/ota_service/ota_update.cpp:261-269 | an empty image, a blank cache |
| `OtaPager.Updater.Data` | deepbrain/apps/ota_service/ota_update.cpp:295-333 | keeps: flash holds the whole pages of the image received, each written once in order, and the cache the rest; an error exactly when the piece completes a page inside the area and its write fails |
| `OtaPager.Updater.DataEnd` | deepbrain/apps/ota_service/ota_update.cpp:271-293 | flash is the image filled up with 0xff to a page, each page written once, whenever that fits the area; when it does not, only the whole pages of the area are written and success is still returned |
| `OtaPager.Update` | deepbrain/apps/ota_service/ota_update.cpp:377-509 | start, any pieces, end: success exactly when no write of a completed page fails, and then the flash holds the padded image, or as much of the image as the area has whole pages; a failed update leaves whole pages of the image in order and the rest of the flash as it was |
| `OtaPager.ByteLost` | deepbrain/apps/ota_service/ota_update.cpp:276-292 | a concrete loss: an image one byte longer than an area of one page |
| `OtaPager.PageCompleted` | deepbrain/apps/ota_service/ota_update.cpp:310-330 | completing a page flashes the right bytes at the right address |
| `OtaPager.AreaFull` | deepbrain/apps/ota_service/ota_update.cpp:302 | data that comes when the area is full changes nothing |
| `OtaPager.PaddedTooLong` | deepbrain/apps/ota_service/ota_update.cpp:277 | an image fits the area, padded, exactly when it is no longer than the area's whole pages |
| `OtaPager.PaddedIs` | deepbrain/apps/ota_service/ota_update.cpp:276-284 | the padded image is the image and then 0xff, up to the next page and no further |
| `OtaPager.AddressesInOrder` | deepbrain/apps/ota_service/ota_update.cpp:310-330 | the pages are written one after the other from the start of the area |

## Left out

- Of mp4a and esds boxes only what decides whether they are accepted; the decoder configuration and the rates and counts they and the ctts, mvhd and mdhd boxes carry are not kept. The audio configuration of a file is a field of the player, `asc`.
- Boxes with 64-bit sizes: read by `BoxReadHeader`, but the trees of `ParseSubBoxes` and `ParseBoxes` have 32-bit ones.
- Sizes and offsets of 2^31 and more: the flat tables hold non-negative 32-bit values.
- Allocation failure, logging, statistics, thread priorities and sleeps.
- A seek into the header, which skips the refill: `FileSeek` states where it goes, streaming from there is not modelled.
- A seek after a refused header when the uninitialised sample number and count happen to ask for a walk: `FileSeek` excludes it, as it would read a track that was never opened.
- Header pieces below 1024 bytes before the last one: they are stored with zeros between, so `FileStart`, `FilePlay` and `PlayFile` exclude them.
- Track tables are kept as values in the unpacker's `tracks`; a `Track` object is made from one when it is opened. Arrays the header readers fill are sequences.
- `HeaderDescribes`: headers of one track with its boxes in the usual order and offsets and sizes below 2^31; which tables other box trees give their tracks is said by `ParseBoxes`.
- The JSON parser's result is a value, not a heap of nodes; the heap form of the child list is in `JsonList.dfy`.
- Printing of numbers that are not 32-bit integers, and the conversion of a parsed number to a double and an int.
- `ReplaceItemInArray`, `DetachItemFromArray`: freeing the unlinked item and its children is not modelled.
- Look-up of object members by name (case-insensitive), references, duplication and the create functions of cJSON: easier relatives.
- Liveness of the circular buffer beyond wake-ups: `NoLostWakeUp` says who may sleep without a token, not that a thread that can go on is scheduled.
- The listener calls of the circular buffer, and `Clear` in the interleavings.
- The handler's WAV path with a saved header, the format checks (a parameter of `MediaDataOut`; of the M4A one the size check is in `M4aFormat.dfy`), and the stop notification of a failed player.
- The player behind `ReadMessage`: codec start, volume, sleep times.
- Applications are values in the framework's list, with what they have taken; callbacks are not run, only looked up. Loop callbacks and event registration are left out.
- The text of UPnP event messages (only its SEQ and length), address parsing, and time-outs of sockets. The source makes that text for the AV transport service only and leaves its pointer unset for the other two; `Prepare` says for which.
- Subscriber ids: they are parameters, their uniqueness is not claimed.
- Of the download loop around the firmware pager only the order of its calls (`Update`); the header check is left out.
- `PrintBuffered`: texts of 2^30 - 32 bytes and more, for which the rounding in pow2gt overflows a 32-bit int.
- `StreamEndToEnd`: says what the player decodes once all is written and read; before that `FifoUnderInterleaving` gives the prefix.
