# Verified models of the vinyl media packages

A Dafny model of the parts of the repository where bytes, documents and callbacks have to come out right: the
MPEG-TS/ADTS transmuxer, the XML writer and parser, the dependency container, the observables, the HLS media playlist
parser, the validators, and ISO 8601 durations. `dafny verify dfyconfig.toml` checks all of it.

How the model is built:

- Code that works step by step is a method or a class here too: `TrackState.Transmuxing`, `Sps.SpsReader`,
  `Buffer.BufferWriter`, `Strings.StringReader`, `Di.Container`, `XmlWriting.XmlWriter`,
  `XmlHandling.ParseXmlHandlerImpl`, `Observable.MutableValueImpl`, `Mapped.SubDataController` and
  `Combine.CombinedData` have the fields of the originals, and loops are loops with invariants. Each such method is
  proved equal to a function of its inputs and old state; the theorems are about those functions.
- Every transformation has a partner written independently of the code: an encoder for what a scanner reads (Annex B
  framing, PES and transport packets with any stuffing, Exp-Golomb and parameter-set syntax, ADTS frames), a reader for
  what a writer writes (boxes that must tile exactly, sample tables, length-prefixed units, descriptors, sample entries),
  a printer of attribute lists and date ranges, the parser for the XML writer, list semantics for the two counters of a
  notification pass, chains of reads for the container.
- Where the code does not keep a property, the exact condition under which it does is proved, with an input that shows
  the failure: `Sps.UeBackIff`, `Pes.StreamCutIff` with `HeaderInPayload`, `TransmuxTracks.ConsistentIff` with `MixingClashes`,
  `TransmuxTracks.StepBelongs`, `TransmuxRun.DecodeTimeReadIff`, `InitReading.ConfigurationKeptIff` with `RateKeptIff`,
  `Transmuxer.TagsSkippedIff`, `DiOrder.DisposedAfterIff` with `Di.DependencyMayGoFirst`, `Observable.PassIff` with
  `SubscriberLost`, `CombineRuns.CurrentIff` with `StaleRecord`, `XmlLost.RoundTripIff` with
  `XmlRoundTrip.ConstructorRefused`, `ClashRefused` and `NamespaceKeptIff`, `XmlRoundTrip.BrokenOffIff` with
  `OpenElementAccepted`, `XmlRules.KeyUniqueIff` with `KeysCanClash`, `Hls.AttributesBackIff` with `ProtoLost`, and
  `HlsRuns.CanMoveIff` with `MovedVersion`. `SpsEscape.SentSizeRecovered` with `SentSizeLost` and
  `Validation.GuardedReports` with `AnswersCanDiffer` give a condition under which it holds, and inputs where it fails.

The modules build on each other like this:

- `Bytes`, `Buffer`, `Strings`, `Wrappers`: byte sequences, the growing writer, the cursor, options and results.
- `AnnexB`, `Sps`, `Pes`, `MpegTs`, `Adts`: one stage of the transmuxer each; `SpsEscape`: parameter sets as they are sent.
- `Mp4` and `InitSegment`: what the transmuxer writes; `InitReading`: what a player reads out of an init segment.
- `Transmuxer`: one call as a function of the state. `TrackState`: the same call as methods on fields. `TransmuxRun`,
  `TransmuxTracks`, `TransmuxContent`, `TransmuxInit`: whole runs, the tracks they declare, and what a player gets to see
  and to know. `FrameTiming`: what a frame duration is.
- `Di`: the container, what a read builds, and when it succeeds. `DiOrder`: the order of disposal.
- `XmlText`, `XmlRules`, `XmlWriting`, `XmlHandling`, `XmlParsing`: both directions. `XmlScanning`, `XmlNames`,
  `XmlTags`, `XmlScopes`, `XmlRoundTrip`: from printed pieces to the round trip. `XmlLost`: what does not come back.
  `XmlGrammar`, `XmlTrees`, `XmlMeaning`: documents as anyone writes them, and what they say.
- `Observable`: notification passes. `Mapped`: chains of derived values. `Combine`: combined records and what their
  listeners do; `CombineRuns`: what holds for all runs of them; `CombineCalls`: who is called.
- `Hls`: the playlist parser. `HlsRuns`: what holds for all playlists. `HlsWritten`: playlists as written, and what they say.
- `Validation`: validator trees. `Conformance`: what they accept and report. `Duration`: durations.

Bytes read past the end of an array are `undefined` in the original; the model keeps what the operators make of that:
0 under a bit operation, unequal to everything under `===`. Random access, callbacks and factories are scripts or
functions given from outside, so the theorems hold for all of them.

## Model

| member | source | states |
|---|---|---|
| `Bytes.ConcatBuffers` | packages/vinyl-transmux/src/mpegts/mpegts.ts:205-214 | The two-pass copy returns exactly the buffers one behind the other, for any list of them |
| `Buffer.BufferWriter.EnsureCapacity` | packages/vinyl-util/src/util/buffer/BufferWriter.ts:20-29 | Doubling ends, makes room for the bytes announced, and keeps what was written |
| `Buffer.BufferWriter.WriteUint32` | packages/vinyl-util/src/util/buffer/BufferWriter.ts:42-46 | Appends the four big-endian bytes of the low 32 bits and changes nothing written before |
| `Buffer.BufferWriter.WriteBytes` | packages/vinyl-util/src/util/buffer/BufferWriter.ts:60-65 | Appends the bytes behind everything written before |
| `Buffer.BufferWriter.ToUint8Array` | packages/vinyl-util/src/util/buffer/BufferWriter.ts:87-89 | Returns exactly the bytes written |
| `AnnexB.ExtractH264Nalus` | packages/vinyl-transmux/src/transmux/transmux.ts:633-674 | Both loops together return, on any input, the units that a one-pass definition of Annex B units finds |
| `AnnexB.Links` | packages/vinyl-transmux/src/transmux/transmux.ts:636-653 | Every start code the first loop records is followed in the list by the first start code behind it, with the zero byte before it if there is one |
| `AnnexB.StepCode` | packages/vinyl-transmux/src/transmux/transmux.ts:655-671 | One turn of the second loop emits the unit between two consecutive start codes, padding trimmed, and nothing when it is empty |
| `AnnexB.FrameRoundTrip` | packages/vinyl-transmux/src/transmux/transmux.ts:633-674 | Scanning undoes Annex B framing: for any mix of start codes, any zero padding and any zeros at the end, exactly the NAL units that were framed come back, in order |
| `AnnexB.NoUnitHoldsAStartCode` | packages/vinyl-transmux/src/transmux/transmux.ts:633-674 | On any input at all no unit is empty, holds a start code, or ends in a padding zero unless it is that one byte |
| `AnnexB.RescanIsStable` | packages/vinyl-transmux/src/transmux/transmux.ts:633-674 | Framing what a scan found and scanning again gives the same units, unless one of them is the single byte 0 |
| `Sps.SpsReader.ReadUe` | packages/vinyl-transmux/src/transmux/transmux.ts:712-718 | The loop over leading zeros and the 32-bit shift read what the code number at the cursor says in 32-bit arithmetic, and leave the cursor behind it |
| `Sps.SpsReader.SkipScalingList` | packages/vinyl-transmux/src/transmux/transmux.ts:747-756 | The delta loop leaves the cursor where the list syntax ends, with the truncating remainder the code uses |
| `Sps.ParseSpsInfo` | packages/vinyl-transmux/src/transmux/transmux.ts:693-785 | The bit reader with its cursor returns, on any bytes, the width and height of the specification function, bits past the end reading as 0 |
| `Sps.UeBack` | packages/vinyl-transmux/src/transmux/transmux.ts:712-718 | Every code number up to 2^31 - 2 comes back from its Exp-Golomb code (section 9.1 of ITU-T H.264), the cursor right behind it |
| `Sps.UeBackIff` | packages/vinyl-transmux/src/transmux/transmux.ts:712-718 | A code is read as the number it was written for exactly when that number is at most 2^31 - 2; beyond, the 32-bit shift reads another number |
| `Sps.SeBack` | packages/vinyl-transmux/src/transmux/transmux.ts:719-722 | Signed code numbers come back from their codes (section 9.1.1) |
| `Sps.ScalingListBack` | packages/vinyl-transmux/src/transmux/transmux.ts:747-756 | For any scaling list the loop consumes exactly the deltas the list syntax of section 7.3.2.1.1.1 holds, no more when the list ends early |
| `Sps.SizeRecovered` | packages/vinyl-transmux/src/transmux/transmux.ts:693-785 | Whatever the profile but 135, the scaling lists, the picture order count type and the number of reference frame offsets: width and height are those of the encoded parameter set |
| `Sps.NalUnitSizeRecovered` | packages/vinyl-transmux/src/transmux/transmux.ts:376-386 | The same for a header byte, the syntax packed into bytes, and anything behind it, before bytes are put in for sending |
| `SpsEscape.EscapedIff` | packages/vinyl-transmux/src/transmux/transmux.ts:376-386 | The bytes an encoder sends (section 7.3.1 of ITU-T H.264 puts a 3 behind two zeros in front of a byte of at most 3) are the bytes themselves exactly when there is no such run in them |
| `SpsEscape.SentSizeRecovered` | packages/vinyl-transmux/src/transmux/transmux.ts:693-785 | The size comes through as it is sent when the bytes that hold the syntax have no such run, whatever stands behind them |
| `SpsEscape.SentProfile` | packages/vinyl-transmux/src/transmux/transmux.ts:376-386 | And so do the profile, the constraints and the level, the three bytes behind the header |
| `SpsEscape.UnescapedSizeRecovered` | packages/vinyl-transmux/src/transmux/transmux.ts:693-785 | And it always would if the bytes put in were taken out before parsing, which the code does not do |
| `SpsEscape.SentSizeLost` | packages/vinyl-transmux/src/transmux/transmux.ts:376-386 | Parameter sets that do not come through: with the reference frame offset -16777215 every size is read as 16 by 16, so it is recovered exactly when it is that |
| `Pes.ExtractElementaryStream` | packages/vinyl-transmux/src/transmux/transmux.ts:574-626 | The scan over PES packets ends on every input and returns the payloads of the specification function |
| `Pes.PayloadsRecovered` | packages/vinyl-transmux/src/transmux/transmux.ts:574-626 | Extraction undoes packetisation, for packets of known and of unknown length in any mix: the result is the payloads, joined in order |
| `Pes.LeadPassedOver` | packages/vinyl-transmux/src/transmux/transmux.ts:574-626 | What is left over from a packet that began elsewhere is passed over: the payloads and the time stamps behind it are those of the packets |
| `Pes.CutShort` | packages/vinyl-transmux/src/transmux/transmux.ts:591-599 | Of a packet that is cut off, the part of the payload that is there is kept |
| `Pes.UnknownLengthIff` | packages/vinyl-transmux/src/transmux/transmux.ts:595-612 | A packet of unknown length gives its payload back exactly when the payload holds no 00 00 01 followed by a byte of 0xBC or more |
| `Pes.StreamCutIff` | packages/vinyl-transmux/src/transmux/transmux.ts:574-626 | In a stream of any number of packets, of known and unknown length, the payloads come back packet by packet exactly when each payload of unknown length is such |
| `Pes.JoinedByChance` | packages/vinyl-transmux/src/transmux/transmux.ts:574-626 | Joined, they may still come out right: a packet cut short by what looks like a header, next to one that makes up for it |
| `Pes.HeaderInPayload` | packages/vinyl-transmux/src/transmux/transmux.ts:595-612 | What looks like a packet header inside a payload is taken for one, and its bytes are lost |
| `Pes.CollectPts` | packages/vinyl-transmux/src/transmux/transmux.ts:338-359 | The header scan of the video side ends and collects the time stamps of the specification function |
| `Pes.PtsBytesBack` | packages/vinyl-transmux/src/mpegts/mpegts.ts:236-253 | The five time-stamp bytes with their marker bits carry every 33-bit time stamp |
| `Pes.StampsRecovered` | packages/vinyl-transmux/src/transmux/transmux.ts:338-359 | The header scan, which steps over packets of known length and into the payload of others, finds exactly the time stamps of the packets that carry one, in order |
| `MpegTs.ParsePmt` | packages/vinyl-transmux/src/mpegts/mpegts.ts:91-120 | The entry loop returns the elementary streams between the program descriptors and the checksum |
| `MpegTs.EntriesBack` | packages/vinyl-transmux/src/mpegts/mpegts.ts:110-118 | Reading undoes writing for every list of streams with descriptors of any length |
| `MpegTs.DemuxTsSegment` | packages/vinyl-transmux/src/mpegts/mpegts.ts:132-200 | Both passes over the packets end and return the streams of the specification function, PIDs in the order of the table |
| `MpegTs.ChunksBack` | packages/vinyl-transmux/src/mpegts/mpegts.ts:167-188 | For any interleaving of PIDs, any adaptation stuffing, packets without payload and an incomplete last packet: what is collected for a PID is its payloads, in order |
| `MpegTs.DemuxBack` | packages/vinyl-transmux/src/mpegts/mpegts.ts:132-200 | Demultiplexing undoes multiplexing once the tables are known: every stream of the table with its chunks if a PMT packet follows a PAT packet, and nothing otherwise |
| `MpegTs.StreamsInTable` | packages/vinyl-transmux/src/mpegts/mpegts.ts:167-200 | When no PID stands in the table twice: one stream for every entry whose PID has payload, in the order of the table, with the type the table gives |
| `MpegTs.FirstPicked` | packages/vinyl-transmux/src/transmux/transmux.ts:284-292 | And the stream picked for a type is that of the first such entry |
| `MpegTs.ElementaryStreamRecovered` | packages/vinyl-transmux/src/mpegts/mpegts.ts:167-188 | Packets, then PES: a PID whose payloads make up PES packets yields their payloads and their time stamps, however the PES packets were cut into transport packets |
| `Adts.ParseAdtsFrames` | packages/vinyl-transmux/src/aac/adts.ts:47-88 | The resynchronising loop ends on every input and returns the frames of the specification function |
| `Adts.FramesAreDisjoint` | packages/vinyl-transmux/src/aac/adts.ts:47-88 | On any input the frames found lie in the data in order, without overlap, each complete |
| `Adts.FramesRecovered` | packages/vinyl-transmux/src/aac/adts.ts:47-88 | Splitting undoes framing: every frame comes back with its fields, with or without checksum, and its raw data is the payload |
| `Adts.Resynchronised` | packages/vinyl-transmux/src/aac/adts.ts:51-60 | Bytes in which no sync word begins, in front of and between frames, change nothing but the offsets, and the beginning of a frame at the end is passed over |
| `Adts.BuildAudioSpecificConfig` | packages/vinyl-transmux/src/aac/adts.ts:94-103 | The assignments into the byte array build the two bytes of the configuration |
| `Adts.ConfigBack` | packages/vinyl-transmux/src/aac/adts.ts:94-103 | Five bits of object type, four of frequency index, four of channels: a decoder reads the fields of the frame out of the two bytes |
| `Mp4.Box` | packages/vinyl-transmux/src/mp4/mp4.ts:33-40 | The size field and the payloads are written one behind the other into a buffer of exactly that size |
| `Mp4.FullBoxBack` | packages/vinyl-transmux/src/mp4/mp4.ts:46-63 | A full box read by a reader that demands exact tiling has the version, flags and payload it was written with |
| `Mp4.Trun` | packages/vinyl-transmux/src/mp4/mp4.ts:361-387 | The sample table: a flag and composition-offset column for all samples as soon as one has it, the data offset left at 0 |
| `Mp4.RowsBack` | packages/vinyl-transmux/src/mp4/mp4.ts:378-383 | Every row of the sample table comes back, signed composition offsets included |
| `Mp4.MoofBack` | packages/vinyl-transmux/src/mp4/mp4.ts:329-390 | A movie fragment header read box by box says the sequence number, track, decode time and samples it was written with |
| `Mp4.PatchDataOffset` | packages/vinyl-transmux/src/mp4/mp4.ts:400-450 | The nested walk ends and sets exactly the four data-offset bytes of the first trun, or nothing |
| `Mp4.TrunFound` | packages/vinyl-transmux/src/mp4/mp4.ts:400-450 | On every fragment header the walk ends and finds the one trun the writer put there |
| `Mp4.PatchedMoof` | packages/vinyl-transmux/src/mp4/mp4.ts:400-450 | Patching a written header is writing it with that offset: nothing else changes |
| `Mp4.WriteFragment` | packages/vinyl-transmux/src/transmux/transmux.ts:503-513 | Header written, patched in place, data box behind it: the offset is the distance from the moof to the first payload byte |
| `Mp4.CutBack` | packages/vinyl-transmux/src/mp4/mp4.ts:361-387 | Cutting the payload by the sizes in the table gives back the samples |
| `Mp4.MediaBack` | packages/vinyl-transmux/src/transmux/transmux.ts:511-513 | A media segment read by a player is every fragment, in order, with exactly its samples |
| `InitSegment.WriteEsDescriptor` | packages/vinyl-transmux/src/transmux/sampleEntry.ts:86-122 | Writing the innermost descriptor first gives the three nested descriptors, each length counting what is nested in it |
| `InitSegment.AscBack` | packages/vinyl-transmux/src/transmux/sampleEntry.ts:86-122 | A decoder walking the three lengths finds exactly the codec configuration |
| `InitReading.Mp4aBack` | packages/vinyl-transmux/src/transmux/sampleEntry.ts:48-61 | The AAC sample entry the writes build, read as a box with fields and a descriptor box: channel count, the low 16 bits of the sample rate, and the codec configuration byte for byte |
| `InitSegment.WriteAvcRecord` | packages/vinyl-transmux/src/transmux/sampleEntry.ts:127-142 | The writes in turn make up the decoder configuration record, both parameter sets behind their 16-bit lengths |
| `InitReading.Avc1Back` | packages/vinyl-transmux/src/transmux/sampleEntry.ts:66-84 | The H.264 sample entry the writes build, read as a box with fields and a configuration box: the low 16 bits of width and height, and both parameter sets |
| `InitSegment.AvcRecordBack` | packages/vinyl-transmux/src/transmux/sampleEntry.ts:127-143 | A decoder reads both parameter sets out of the AVC configuration record, if their lengths fit 16 bits |
| `InitSegment.Moov` | packages/vinyl-transmux/src/mp4/mp4.ts:95-101 | The moov box is the header, then every track followed by its mvex |
| `InitSegment.InitBack` | packages/vinyl-transmux/src/mp4/mp4.ts:80-186 | The track ids a reader finds in the headers of an init segment are those of the tracks given, in order, whatever their media boxes hold |
| `InitReading.InitTracksBack` | packages/vinyl-transmux/src/mp4/mp4.ts:80-303 | A reader that goes down every track, from moov through trak, mdia, minf, stbl and stsd to the sample entry, and asks that the handler fits the entry and the header has the size of it, learns of each track in order: id, time scale, size or channels and rate in 16 bits, and the codec configuration |
| `InitReading.ExtendedBack` | packages/vinyl-transmux/src/mp4/mp4.ts:95-101 | And of its movie extension boxes: that fragments add to the tracks 1, 2, ... as many as there are |
| `InitReading.ConfigurationKeptIff` | packages/vinyl-transmux/src/mp4/mp4.ts:80-303 | It learns exactly what the transmuxer was configured with if and only if width, height, channel count and sample rate are numbers of 16 bits |
| `InitReading.RateKeptIff` | packages/vinyl-transmux/src/transmux/sampleEntry.ts:59 | Of the sampling frequencies of an ADTS header exactly the first two, 96000 and 88200 Hz, are lost in the sample entry; time scale and codec configuration always tell the rate |
| `Transmuxer.TagsSkippedIff` | packages/vinyl-transmux/src/transmux/transmux.ts:181-194 | Any number of written ID3v2 tags with their seven-bit sizes is skipped and leaves the segment, exactly when none of them has a footer: a footer is not skipped, and skipping stops there |
| `Transmuxer.GroupAccessUnits` | packages/vinyl-transmux/src/transmux/transmux.ts:429-459 | Parameter sets and SEI wait for the next slice, every slice ends an access unit, other NAL types are dropped |
| `Transmuxer.ComputeFrameDuration` | packages/vinyl-transmux/src/transmux/transmux.ts:360-368 | The loops over the sorted time stamps compute the duration of the specification function |
| `FrameTiming.FrameDurationIs` | packages/vinyl-transmux/src/transmux/transmux.ts:360-368 | The frame duration is the gap between neighbours, in any ascending arrangement of the time stamps, of which at most half of the gaps are smaller and more than half are not larger; or 3754 when that is 0 |
| `FrameTiming.MiddleOnce` | packages/vinyl-transmux/src/transmux/transmux.ts:364-367 | There is only one such gap |
| `FrameTiming.EvenStamps` | packages/vinyl-transmux/src/transmux/transmux.ts:360-368 | For evenly spaced time stamps, in whatever order they come, it is their distance |
| `FrameTiming.FewStamps` | packages/vinyl-transmux/src/transmux/transmux.ts:338-360 | With fewer than two time stamps it is 3754 |
| `Transmuxer.SortSorts` | packages/vinyl-transmux/src/transmux/transmux.ts:362-366 | The sort orders its input and keeps every element as often as it occurs |
| `Transmuxer.FrameDurationPositive` | packages/vinyl-transmux/src/transmux/transmux.ts:360-368 | The frame duration is never 0 and never negative, whatever the time stamps |
| `TrackState.BuildVideoSamples` | packages/vinyl-transmux/src/transmux/transmux.ts:472-503 | The sample loop builds one entry per access unit and, as data, its NAL units each behind its length |
| `TrackState.RecutFrames` | packages/vinyl-transmux/src/transmux/transmux.ts:528-538 | Cutting the joined raw data by frame length less header size gives back the parts that were joined |
| `TrackState.Transmuxing.ProcessAudio` | packages/vinyl-transmux/src/transmux/transmux.ts:298-327 | The audio side sets the configuration from the first frame ever seen and returns the raw frames |
| `TrackState.Transmuxing.ProcessVideo` | packages/vinyl-transmux/src/transmux/transmux.ts:335-390 | The video side sets the configuration from the first parameter sets ever seen and returns NAL units and time stamps |
| `TrackState.Transmuxing.DeclareTracks` | packages/vinyl-transmux/src/transmux/transmux.ts:393-418 | Without an init segment and with a configuration one is built, video track first, and the ids are assigned |
| `TrackState.Transmuxing.EmitTs` | packages/vinyl-transmux/src/transmux/transmux.ts:420-566 | A fragment per declared track that has samples, video first, each taking the next sequence number and advancing its track's decode time |
| `TrackState.Transmuxing.TransmuxAdts` | packages/vinyl-transmux/src/transmux/transmux.ts:199-278 | The ADTS path: errors, first configuration, fragment, counters |
| `TrackState.Transmuxing.TransmuxMpegTs` | packages/vinyl-transmux/src/transmux/transmux.ts:280-568 | The MPEG-TS path as a whole, state and result |
| `TrackState.Transmuxing.Transmux` | packages/vinyl-transmux/src/transmux/transmux.ts:157-176 | One call changes the fields of the transmuxer as the step function says and returns its result or its error |
| `TransmuxRun.EveryFragmentPlaced` | packages/vinyl-transmux/src/transmux/transmux.ts:255-261 | In every run, of any mix of segments and failed calls: fragments are numbered 1, 2, 3, ... in the order they are handed out, and each begins at the sum of all earlier sample durations of its track |
| `TransmuxRun.DecodeTimeReadIff` | packages/vinyl-transmux/src/mp4/mp4.ts:355-359 | The decode time a player reads is that sum exactly when the sum fits the 32 bits of the box |
| `TransmuxTracks.StepConsistent` | packages/vinyl-transmux/src/transmux/transmux.ts:210-231 | One call keeps the init segment and the track ids those of the declared configurations exactly when it does not build the init segment again; when it does, both kinds claim track 1 |
| `TransmuxTracks.ConsistentIff` | packages/vinyl-transmux/src/transmux/transmux.ts:210-231 | The same over whole runs: consistent exactly as long as no ADTS segment arrived while the init segment declared no audio |
| `TransmuxTracks.MixingClashes` | packages/vinyl-transmux/src/transmux/transmux.ts:210-231 | A concrete ADTS segment after a video-only init segment breaks it, in every state of that shape |
| `TransmuxTracks.StepBelongs` | packages/vinyl-transmux/src/transmux/transmux.ts:424-524 | Every fragment of a call carries the id of its kind's track, except when an ADTS segment arrives with audio configured but not declared: then the fragment carries 0 |
| `TransmuxTracks.OneContainerNeverRebuilds` | packages/vinyl-transmux/src/transmux/transmux.ts:210-231 | When all segments come in one container, the init segment is never built again |
| `TransmuxTracks.InitSegmentNeverChanges` | packages/vinyl-transmux/src/transmux/transmux.ts:149-155 | On one container, all calls that hand out an init segment hand out the same one |
| `TransmuxTracks.OneSetOfTracks` | packages/vinyl-transmux/src/transmux/transmux.ts:134-146 | On one container there is one set of tracks for the whole run: every init segment declares it, every codec list names exactly it, every fragment uses one of its ids, and a track seen later is never emitted |
| `TransmuxTracks.InitDeclaresIds` | packages/vinyl-transmux/src/transmux/transmux.ts:393-418 | Reading the init segment gives the ids in use, each once |
| `TransmuxContent.GroupKeeps` | packages/vinyl-transmux/src/transmux/transmux.ts:429-459 | The access units joined are the parameter sets, SEI and slices up to the last slice, in order, and nothing else |
| `TransmuxContent.GroupSlices` | packages/vinyl-transmux/src/transmux/transmux.ts:429-459 | One sample per slice; the slice is its last unit, and it is marked as a sync sample exactly when it is an IDR slice |
| `TransmuxContent.CutNalsBack` | packages/vinyl-transmux/src/transmux/transmux.ts:477-486 | Cutting a sample by its four-byte lengths gives back its NAL units |
| `TransmuxContent.VideoFragmentKeeps` | packages/vinyl-transmux/src/transmux/transmux.ts:427-503 | Every NAL list: the samples of the fragment, cut by their lengths, hold exactly the kept units up to the last slice |
| `TransmuxContent.LeastIsLeast` | packages/vinyl-transmux/src/transmux/transmux.ts:468-469 | The base is one of the time stamps and none is smaller |
| `TransmuxContent.PresentationTimes` | packages/vinyl-transmux/src/transmux/transmux.ts:466-500 | For every sample with a time stamp: decode time plus composition offset is the fragment's start plus the distance of the time stamp from the least one, as a player reads it |
| `TransmuxContent.VideoInputBack` | packages/vinyl-transmux/src/transmux/transmux.ts:335-371 | Through packets, PES and Annex B: the video side gets exactly the NAL units and time stamps of the multiplexed stream |
| `TransmuxContent.AudioInputBack` | packages/vinyl-transmux/src/transmux/transmux.ts:298-327 | Through packets, PES and ADTS: the audio side gets exactly the frames, however they were cut into PES packets |
| `TransmuxContent.MediaRead` | packages/vinyl-transmux/src/transmux/transmux.ts:557-568 | The media segment of a call read back: one entry per fragment handed out, in order |
| `TransmuxContent.VideoSurvives` | packages/vinyl-transmux/src/transmux/transmux.ts:280-568 | From the multiplexed stream to the player: the first fragment shows the kept NAL units, sample by sample, at the presentation times of their time stamps, each for the frame duration, and as a sync sample that needs no other exactly when its slice is an IDR slice |
| `TransmuxContent.AudioSurvives` | packages/vinyl-transmux/src/transmux/transmux.ts:280-568 | The last fragment holds the AAC frames without their headers, 1024 ticks each |
| `TransmuxContent.VideoShownIff` | packages/vinyl-transmux/src/transmux/transmux.ts:373-461 | A call on a segment that carries video hands out a video fragment, first, exactly when the stream holds a slice, parameter sets were seen before or are in it, and the init segment is not built yet or has a video track |
| `TransmuxContent.AudioShownIff` | packages/vinyl-transmux/src/transmux/transmux.ts:393-523 | And an audio fragment, last, exactly when there is a frame, and the init segment is not built yet or has an audio track |
| `TransmuxContent.AdtsSurvives` | packages/vinyl-transmux/src/transmux/transmux.ts:199-278 | An ADTS segment becomes one fragment whose samples are the frames without their headers |
| `TransmuxInit.VideoDeclared` | packages/vinyl-transmux/src/transmux/transmux.ts:373-390 | The first call on a multiplexed stream: a player reads out of the init segment the first sequence parameter set and the first picture parameter set of the stream byte for byte, the size that stands in the former, and its profile bytes; the codec name holds these in hexadecimal |
| `TransmuxInit.EncodedSet` | packages/vinyl-transmux/src/transmux/transmux.ts:376-386 | And when an encoder wrote that set, without such a run in it, size, profile, constraints and level are those it wrote |
| `TransmuxInit.AudioDeclared` | packages/vinyl-transmux/src/transmux/transmux.ts:310-327 | A decoder reads object type, frequency index and channels of the first AAC frame out of the configuration in the init segment; the time scale is the frequency that index stands for, and the codec name holds the object type in decimal |
| `TransmuxInit.AdtsDeclared` | packages/vinyl-transmux/src/transmux/transmux.ts:199-278 | The same for an ADTS segment, which declares this one track |
| `TransmuxInit.OthersRefused` | packages/vinyl-transmux/src/transmux/transmux.ts:165-175 | What begins neither like a packet nor like a frame nor like a tag is refused and changes nothing |
| `Di.Container.Get` | packages/vinyl-di/src/di/di.ts:164-204 | A read from outside: the value, nothing for an unknown key, or the error; flags and creation forest are those of the specification |
| `Di.Container.Lookup` | packages/vinyl-di/src/di/di.ts:164-204 | The getter as factories call it, re-entrantly |
| `Di.Container.Create` | packages/vinyl-di/src/di/di.ts:167-202 | One construction: flags, the factory call, the value put at the remembered index |
| `Di.Container.CallFactory` | packages/vinyl-di/src/di/di.ts:175-189 | Items registered at the remembered index end up newest first, in front of everything the factory caused to be built |
| `Di.Container.Dispose` | packages/vinyl-di/src/di/di.ts:211-216 | The disposal list is the pre-order of the creation forest; a second disposal is refused |
| `Di.Container.Enumerate` | packages/vinyl-di/src/di/di.ts:148-158 | Enumeration is refused exactly while something is under construction |
| `Di.ReadSucceedsIff` | packages/vinyl-di/src/di/di.ts:164-204 | A read succeeds exactly when no chain of reads through factories without a value meets itself or something under construction; otherwise it raises the cyclic error |
| `Di.BuildCompletes` | packages/vinyl-di/src/di/di.ts:164-204 | A successful read completes keys in an order in which everything a key reads was there before or comes earlier, and the key itself is among them |
| `Di.CreatingKept` | packages/vinyl-di/src/di/di.ts:172-201 | Without an error nothing is left under construction that was not so before, and no key is both complete and under construction |
| `Di.BuildFresh` | packages/vinyl-di/src/di/di.ts:164-204 | Each factory is called at most once: the calls of a read have distinct keys, none of them marked before, and mark exactly those keys |
| `Di.CreatorsFirst` | packages/vinyl-di/src/di/di.ts:174-201 | Whatever a factory call caused to be built is disposed after everything of that call itself |
| `Di.EachItemOnce` | packages/vinyl-di/src/di/di.ts:174-201 | No item is disposed twice |
| `Di.ItemKeys` | packages/vinyl-di/src/di/di.ts:174-201 | Everything on the disposal list belongs to a factory call of the forest |
| `Di.DisposedAsBegun` | packages/vinyl-di/src/di/di.ts:174-201 | Of two keys, the one that comes first in the forest is disposed first, with all its items |
| `DiOrder.BegunAre` | packages/vinyl-di/src/di/di.ts:164-204 | And the forest lists the keys in the order in time in which their factories began |
| `DiOrder.DisposedAfterIff` | packages/vinyl-di/src/di/di.ts:174-201 | In any successful read, something a factory reads is disposed after everything of that factory exactly when it had not begun when the factory began |
| `DiOrder.DependencyAfterIff` | packages/vinyl-di/src/di/di.ts:174-201 | For the key read: what its factory reads is disposed after it exactly when it was not marked before the read |
| `DiOrder.AllDisposed` | packages/vinyl-di/src/di/di.ts:164-204 | A read that succeeds leaves exactly this to dispose: for every factory that ran, in the order in which they began, its value if that is the container's, and all it registered, the last first |
| `Di.DependencyMayGoFirst` | packages/vinyl-di/src/di/di.ts:175-198 | So a dependency read before its dependent is disposed before it: two factories that show it |
| `Strings.StringReader.While` | packages/vinyl-util/src/util/string/StringReader.ts:81-88 | The cursor moves over exactly the run of characters that satisfy the predicate |
| `Strings.StringReader.UntilString` | packages/vinyl-util/src/util/string/StringReader.ts:118-123 | The cursor moves to the first occurrence, or to the end |
| `Strings.StringReader.CharIf` | packages/vinyl-util/src/util/string/StringReader.ts:214-221 | Reads the character exactly when it stands there |
| `XmlText.NameCharRanges` | packages/vinyl-xml/src/xml/parseXml.ts:236-270 | The halving decides exactly the listed ranges, none of which holds markup, a quote, a colon or white space |
| `XmlText.DecodeEncode` | packages/vinyl-util/src/util/string/string.ts:123-176 | Decoding undoes encoding, for every string |
| `XmlText.NumberBack` | packages/vinyl-util/src/util/string/string.ts:123-148 | A character written as its number, decimal or hexadecimal in either case, is decoded |
| `XmlText.NoSuchCharacter` | packages/vinyl-util/src/util/string/string.ts:138-146 | Numbers beyond Unicode and those of surrogate halves stay as they are written |
| `XmlText.NamedBack` | packages/vinyl-util/src/util/string/string.ts:123-137 | The five names are decoded in letters of either case |
| `XmlText.TrimmedBack` | packages/vinyl-xml/src/xml/ParseXmlHandlerImpl.ts:144-148 | Text printed with entities, then trimmed and decoded, is the text without the white space around it |
| `XmlText.EncodedIsClean` | packages/vinyl-util/src/util/string/string.ts:167-176 | Encoded text holds no quote and no angle bracket |
| `XmlText.CDataIsSections` | packages/vinyl-xml/src/xml/stringifyXml.ts:218-227 | Splitting and joining prints a list of sections |
| `XmlText.SectionsAreText` | packages/vinyl-xml/src/xml/stringifyXml.ts:224-226 | The sections together are the text, for every text, and none holds the terminator |
| `XmlText.SectionEnds` | packages/vinyl-xml/src/xml/parseXml.ts:129-137 | A section without the terminator is read back whole |
| `XmlRules.MapXmlRules` | packages/vinyl-xml/src/xml/mappedXmlRules.ts:148-246 | The loop maps every rule under its key; it fails exactly when two rules of a kind share one or two take the text |
| `XmlRules.KeyInjective` | packages/vinyl-xml/src/xml/mappedXmlRules.ts:255-260 | Keys tell namespaces and local names apart, as long as local names hold no colon |
| `XmlRules.KeyUniqueIff` | packages/vinyl-xml/src/xml/mappedXmlRules.ts:255-260 | A key belongs to one name alone exactly when neither the local name nor the namespace as it is printed holds a colon |
| `XmlRules.PlainKeyUniqueIff` | packages/vinyl-xml/src/xml/mappedXmlRules.ts:255-260 | Among names without colons, of any namespace, exactly when the local name holds none |
| `XmlRules.KeysCanClash` | packages/vinyl-xml/src/xml/mappedXmlRules.ts:255-260 | With a colon in a local name two different names share a key |
| `XmlWriting.XmlWriter.Stringify` | packages/vinyl-xml/src/xml/stringifyXml.ts:81-91 | The document, or the schema error, is that of the specification; the prefixes in use are cleared |
| `XmlWriting.XmlWriter.QName` | packages/vinyl-xml/src/xml/stringifyXml.ts:93-105 | A name takes its prefix from the map or gets the next one, and the prefixes in use grow by at most it |
| `XmlWriting.XmlWriter.StringifyElement` | packages/vinyl-xml/src/xml/stringifyXml.ts:114-171 | The appended string is the print of the element's pieces: tag, namespace declarations, text, children, end tag |
| `XmlWriting.XmlWriter.StringifyAttributes` | packages/vinyl-xml/src/xml/stringifyXml.ts:181-210 | Attributes present and not at their default are written in rule order; a missing required one is the schema error |
| `XmlWriting.XmlWriter.StringifyChildren` | packages/vinyl-xml/src/xml/stringifyXml.ts:236-293 | Children are written rule by rule, each on its line; a wrong number of them is the schema error |
| `XmlHandling.ParseXmlHandlerImpl.StartDocument` | packages/vinyl-xml/src/xml/ParseXmlHandlerImpl.ts:72-82 | Refused exactly while a document is being parsed |
| `XmlHandling.ParseXmlHandlerImpl.StartElement` | packages/vinyl-xml/src/xml/ParseXmlHandlerImpl.ts:84-142 | Pushes the element with its attributes and defaults, or fails on a second single element or a missing required attribute |
| `XmlHandling.ParseXmlHandlerImpl.TextNode` | packages/vinyl-xml/src/xml/ParseXmlHandlerImpl.ts:144-148 | Text is appended, trimmed and then decoded, where the rules take text, and dropped where not |
| `XmlHandling.ParseXmlHandlerImpl.EndElement` | packages/vinyl-xml/src/xml/ParseXmlHandlerImpl.ts:156-171 | Sets the text property, checks the numbers of children, and leaves the parent with the finished element |
| `XmlHandling.ParseXmlHandlerImpl.EndDocument` | packages/vinyl-xml/src/xml/ParseXmlHandlerImpl.ts:173-178 | Returns the object of the innermost open element if its numbers of children are right |
| `XmlHandling.StartKeeps` | packages/vinyl-xml/src/xml/ParseXmlHandlerImpl.ts:84-142 | Every start keeps the stack well formed: each element sits in the slot of the rule it matched |
| `XmlHandling.EndKeeps` | packages/vinyl-xml/src/xml/ParseXmlHandlerImpl.ts:156-171 | Every end keeps it well formed, one element lower |
| `XmlParsing.ReadQName` | packages/vinyl-xml/src/xml/parseXml.ts:279-292 | Reads the longest name, with a prefix if a colon follows |
| `XmlParsing.ReadAttributeValue` | packages/vinyl-xml/src/xml/parseXml.ts:204-210 | A value between two equal quotes, decoded, or an error |
| `XmlParsing.XmlAttributes` | packages/vinyl-xml/src/xml/parseXml.ts:303-336 | The loop reads all attributes, refuses a name twice, and collects the namespaces they declare |
| `XmlParsing.UntilTagClose` | packages/vinyl-xml/src/xml/parseXml.ts:216-228 | Skips to the end of a tag, quotes included, and stops at the end of the input |
| `XmlParsing.ReadMarkup` | packages/vinyl-xml/src/xml/parseXml.ts:103-183 | One piece of markup and its event: end tags must match, declarations and instructions are skipped |
| `XmlParsing.ParseXml` | packages/vinyl-xml/src/xml/parseXml.ts:62-190 | The whole loop ends on every input and returns what the specification says, or fails where it does |
| `XmlGrammar.AttrsRead` | packages/vinyl-xml/src/xml/parseXml.ts:303-336 | A list of attributes in any layout, white space around equals signs, either kind of quotes, values left out, is read exactly when no name repeats or is inherited by every object |
| `XmlGrammar.AsideRead` | packages/vinyl-xml/src/xml/parseXml.ts:216-228 | Instructions and declarations are passed over up to their end, whatever quotes they hold |
| `XmlGrammar.CommentRead` | packages/vinyl-xml/src/xml/parseXml.ts:122-129 | Comments are passed over |
| `XmlMeaning.EnteredKnows` | packages/vinyl-xml/src/xml/parseXml.ts:74-85 | Prefixes and the default namespace inside a tag are those its attributes declare, and the outer ones else |
| `XmlMeaning.AttributesAre` | packages/vinyl-xml/src/xml/ParseXmlHandlerImpl.ts:109-135 | The attributes of an element are the last values given under the names of its rules, or the defaults; a required one is missing when it has neither |
| `XmlTrees.NodesParse` | packages/vinyl-xml/src/xml/parseXml.ts:92-184 | Parsing the text of a tree of nodes is a walk over the tree |
| `XmlMeaning.ParsedMeans` | packages/vinyl-xml/src/xml/parseXml.ts:62-190 | For every document anyone may write, with text, sections, comments, instructions, declarations and elements in any order and layout: the parser accepts it exactly when tags match, no attribute is there twice and the rules are met, and returns the object read off the tree: children by rule and in order, attributes with defaults, and as text the trimmed and decoded texts and the sections joined in document order |
| `XmlMeaning.TextRead` | packages/vinyl-xml/src/xml/ParseXmlHandlerImpl.ts:144-148 | Text printed with entities between two tags comes back without the white space around it when the rule takes text, and is gone when not |
| `XmlMeaning.RuleCalls` | packages/vinyl-xml/src/xml/mappedXmlRules.ts:148-246 | A rule without a namespace of its own is for elements without a prefix where its parent's namespace is the default one; one with a namespace for those in it |
| `XmlParsing.StepKeeps` | packages/vinyl-xml/src/xml/parseXml.ts:103-183 | Every piece of markup keeps scopes and handler stack in step |
| `XmlNames.Base36Injective` | packages/vinyl-xml/src/xml/stringifyXml.ts:100-102 | Different counters print differently |
| `XmlNames.PrefixesClashIff` | packages/vinyl-xml/src/xml/stringifyXml.ts:93-105 | Two namespaces get one prefix exactly when the map gives it to both, or gives one of them the prefix the counter makes up for the other |
| `XmlNames.PrefixesDiffer` | packages/vinyl-xml/src/xml/stringifyXml.ts:93-105 | So a map with different prefixes, none of them like those made up, keeps all namespaces apart |
| `XmlNames.ElementGrows` | packages/vinyl-xml/src/xml/stringifyXml.ts:114-171 | Writing an element only ever adds prefixes; those in use stay as they are |
| `XmlTags.NamesDiffer` | packages/vinyl-xml/src/xml/stringifyXml.ts:181-210 | While no two namespaces share a prefix, attributes of different rules are written with different names |
| `XmlTags.TagIff` | packages/vinyl-xml/src/xml/stringifyXml.ts:126-159 | The declarations and attributes of a written tag are such as the parser takes exactly when none of the attributes written has a name every object inherits, if no two namespaces share a prefix; on the root element, which declares them all, never if two do |
| `XmlScopes.DefaultBack` | packages/vinyl-xml/src/xml/stringifyXml.ts:126-137 | Inside a written tag the default namespace the parser has is the one the writer goes on with, entities in it decoded, for the parser decodes what the writer leaves as it is |
| `XmlScopes.PrefixesBack` | packages/vinyl-xml/src/xml/stringifyXml.ts:147-151 | Inside a written tag every prefix in use is bound to its namespace as it is read |
| `XmlScopes.AssignBack` | packages/vinyl-xml/src/xml/ParseXmlHandlerImpl.ts:109-119 | The handler reads out of a written tag exactly the attributes the writer put into it, if their namespaces are read as they are written |
| `XmlScopes.PresentFills` | packages/vinyl-xml/src/xml/ParseXmlHandlerImpl.ts:121-135 | Defaults make up for what was not written, and nothing required is missing |
| `XmlScanning.MarkupBack` | packages/vinyl-xml/src/xml/parseXml.ts:92-184 | Every printed piece is read back, the scanner stopping right behind it |
| `XmlScanning.AttrsIff` | packages/vinyl-xml/src/xml/parseXml.ts:303-336 | A printed list of attributes is read back exactly when no name in it repeats or is inherited by every object, and refused otherwise |
| `XmlScanning.MarkupIff` | packages/vinyl-xml/src/xml/parseXml.ts:92-184 | So a printed piece is read back exactly when its attributes are such, and refused otherwise |
| `XmlScanning.ItemsBack` | packages/vinyl-xml/src/xml/parseXml.ts:92-184 | Parsing a printed list of pieces is handling them one after the other, then the rest of the document |
| `XmlScanning.SeenNameFails` | packages/vinyl-xml/src/xml/parseXml.ts:303-336 | An attribute whose name was seen, or which every object inherits, such as `constructor`, is always refused |
| `XmlRoundTrip.ElementRuns` | packages/vinyl-xml/src/xml/ParseXmlHandlerImpl.ts:84-171 | Reading a written element attaches exactly that element to its parent, with its defaults, at any depth |
| `XmlRoundTrip.RoundTrip` | packages/vinyl-xml/src/xml/parseXml.ts:62-190 | For every schema and every object that fits it, validation on or off: a document with neither inherited attribute names nor a prefix used twice nor namespaces with entities gives the object back with the defaults of absent attributes filled in |
| `XmlRoundTrip.UnreadableRefused` | packages/vinyl-xml/src/xml/parseXml.ts:303-336 | A written document with an attribute name every object inherits, or with two namespaces under one prefix, is refused |
| `XmlRoundTrip.WrittenIff` | packages/vinyl-xml/src/xml/stringifyXml.ts:114-293 | The writer accepts an object exactly when every required attribute is there, at any depth, and every rule has as many elements as it asks for |
| `XmlLost.WrapGrows` | packages/vinyl-xml/src/xml/ParseXmlHandlerImpl.ts:84-171 | Reading a printed element, whatever its name and namespace and whatever becomes of its content, changes nothing but the slot its name sends it to |
| `XmlLost.AttributeLost` | packages/vinyl-xml/src/xml/ParseXmlHandlerImpl.ts:109-119 | If the namespace of a written attribute is read as another, the attributes read are not those written, defaults included |
| `XmlLost.RoundTripIff` | packages/vinyl-xml/src/xml/parseXml.ts:62-190 | For every schema, every object that fits it and any map of prefixes: a document the writer accepts is parsed back as that object exactly when no attribute written in it has a name every object inherits, no two namespaces of its attributes share a prefix, and no namespace in it holds an entity the parser decodes; in the first two cases it is refused |
| `XmlLost.ClashRefused` | packages/vinyl-xml/src/xml/stringifyXml.ts:93-105 | A concrete object: the map gives one namespace the prefix made up for the other, and the parser refuses what the writer writes |
| `XmlLost.NamespaceKeptIff` | packages/vinyl-xml/src/xml/stringifyXml.ts:119-126 | An element in a namespace comes back exactly when decoding entities leaves the namespace as it is; otherwise the document is accepted, validation on or off, and the element is gone |
| `XmlLost.EntityInNamespace` | packages/vinyl-util/src/util/string/string.ts:123-148 | A namespace that is lost, `urn:a&lt;b`, and one with an ampersand that is not, `urn?a&b` |
| `XmlRoundTrip.ConstructorRefused` | packages/vinyl-xml/src/xml/parseXml.ts:331-332 | A concrete document the writer accepts and the parser refuses: one attribute `constructor` |
| `XmlRoundTrip.BrokenOffIff` | packages/vinyl-xml/src/xml/parseXml.ts:92-102 | Open elements at the end are not noticed: a document broken off behind any of its pieces is accepted exactly when the innermost open element has the children its rules demand, and that element is the result |
| `XmlRoundTrip.OpenElementAccepted` | packages/vinyl-xml/src/xml/parseXml.ts:92-102 | The document `<a>` is accepted |
| `Observable.MutableValueImpl.OnData` | packages/vinyl-observable/src/observable/observableValue.ts:181-194 | A subscription is appended and its callback called at once with the current value, or it is refused once disposed |
| `Observable.MutableValueImpl.Off` | packages/vinyl-observable/src/observable/observableValue.ts:185-193 | Unsubscribing removes the first occurrence and moves the two counters as the code does |
| `Observable.MutableValueImpl.DisposeAll` | packages/vinyl-observable/src/observable/observableValue.ts:219-224 | Disposal empties the list and ends a pass under way |
| `Observable.MutableValueImpl.Notify` | packages/vinyl-observable/src/observable/observableValue.ts:226-236 | The re-entrant loop calls whom the counter specification says, whatever the callbacks do, and resets the index even when one throws |
| `Observable.MutableValueImpl.SetValue` | packages/vinyl-observable/src/observable/observableValue.ts:200-209 | Setting from a callback or after disposal is refused, an equal value tells nobody, any other is stored under a new id and told |
| `Observable.PassCallsTheLine` | packages/vinyl-observable/src/observable/observableValue.ts:226-236 | A pass calls exactly the subscribers present at its start and still present at their turn, each once, in order; one that came during the pass is not called; after an exception, a prefix of that |
| `Observable.CountFollows` | packages/vinyl-observable/src/observable/observableValue.ts:185-193 | One action keeps the two counters as the lists mean, short by one for everyone who came during the pass and left again |
| `Observable.PassIff` | packages/vinyl-observable/src/observable/observableValue.ts:226-236 | From any point of a pass the counter loop calls exactly those still in line if and only if there never are as few left in line as the counters fall short; otherwise it calls the first of them and stops too early |
| `Observable.NotifyIff` | packages/vinyl-observable/src/observable/observableValue.ts:226-236 | For a whole notification: everyone in line is called exactly if there never are as few in line as have come and gone during the pass |
| `Observable.NewcomersWait` | packages/vinyl-observable/src/observable/observableValue.ts:226-236 | Whoever a pass calls stood in line at its start; those who come during it are called by their own subscription only |
| `Observable.SubscriberLost` | packages/vinyl-observable/src/observable/observableValue.ts:190-191 | A concrete pass in which a callback subscribes and unsubscribes the same function: the subscriber behind it is not called |
| `Mapped.SubDataController.GetTransformed` | packages/vinyl-observable/src/observable/observableValue.ts:259-266 | Through any chain of mapped values the value returned is the recomputation from the root, and the caches stay sound |
| `Mapped.CachesStaySound` | packages/vinyl-observable/src/observable/observableValue.ts:255-266 | A change of the root under a new id, or none, leaves every cache of the chain sound |
| `Mapped.SetRoot` | packages/vinyl-observable/src/observable/observableValue.ts:200-236 | After setting the root, every mapped value is that of the new root value, whatever the callbacks do |
| `Mapped.Subscription.Deliver` | packages/vinyl-observable/src/observable/observableValue.ts:276-287 | Along a chain of mapped subscriptions a value is emitted exactly when it differs from that of the previous root value |
| `Mapped.Watch` | packages/vinyl-observable/src/observable/observableValue.ts:200-287 | A whole run, from subscribing through any number of root values, scripts of the other callbacks included: what a mapped subscription emits is the mapped root values with consecutive repeats removed, if it is called each time; and it is when the others leave the list alone |
| `Mapped.NoRepeats` | packages/vinyl-observable/src/observable/observableValue.ts:276-287 | What a subscription emits holds no two equal neighbours and begins and ends like the values seen |
| `Combine.CombinedData.SubscribeInputs` | packages/vinyl-observable/src/observable/combineData.ts:43-64 | A loop over the inputs subscribes to each and notes the value it tells at once; one complete record is published behind it, if anything differs |
| `Combine.CombinedData.OnInput` | packages/vinyl-observable/src/observable/combineData.ts:55-58 | What an input calls: its value is noted and the record published, which the value behind it refuses while it tells its listeners |
| `Combine.CombinedData.NotifyInput` | packages/vinyl-observable/src/observable/observableValue.ts:226-236 | The re-entrant loop over an input's subscriptions, whatever the listeners do in between |
| `Combine.CombinedData.NotifyListeners` | packages/vinyl-observable/src/observable/observableValue.ts:226-236 | The re-entrant loop over the listeners, who may listen, stop, throw and set inputs |
| `Combine.CombinedData.SetInputValue` | packages/vinyl-observable/src/observable/observableValue.ts:200-209 | An input refuses a value while it tells, ignores an equal one, and tells any other |
| `Combine.CombinedData.OnData` | packages/vinyl-observable/src/observable/observableValue.ts:357-371 | The first listener subscribes the inputs; every listener is called with the current record |
| `Combine.CombinedData.Off` | packages/vinyl-observable/src/observable/observableValue.ts:357-371 | The last listener to go lets the inputs go |
| `CombineRuns.SubscribedWhileHeard` | packages/vinyl-observable/src/observable/combineData.ts:43-69 | In every run, whatever listeners do, setting inputs while they are told included: every input is subscribed, once, exactly when there is a listener, and no list is left in the middle of telling |
| `CombineRuns.RecordIsCurrent` | packages/vinyl-observable/src/observable/combineData.ts:43-69 | In every run in which no listener sets an input while it is told: whoever listens has the record of the inputs as they are, and every record published or handed to a listener is what all inputs were at one moment |
| `CombineRuns.TameActs` | packages/vinyl-observable/src/observable/combineData.ts:43-69 | There, an action publishes exactly one complete record when an input changes while someone listens or when the first listener finds changed inputs, and none otherwise |
| `CombineCalls.ListenersTold` | packages/vinyl-observable/src/observable/observableValue.ts:226-236 | With a new record the listeners are called one after the other as an observable's pass with the same scripts calls its subscribers, as long as they only go or fail |
| `CombineCalls.EveryoneTold` | packages/vinyl-observable/src/observable/observableValue.ts:226-236 | Listeners that do nothing are all called with the new record, in order |
| `CombineCalls.ComerTold` | packages/vinyl-observable/src/observable/observableValue.ts:181-194 | Who comes to listen is called at once with the inputs as they are |
| `CombineRuns.CurrentIff` | packages/vinyl-observable/src/observable/combineData.ts:55-58 | What listeners may do: the record is current for whoever listens, after every run in which they do nothing or run a given script, exactly when that script sets no input before it throws |
| `CombineRuns.StaleRecord` | packages/vinyl-observable/src/observable/combineData.ts:36-41 | A concrete run: told of one input, a listener sets the other and catches the error; the record keeps the old value, and still does when the listener goes and comes back |
| `CombineRuns.RepairedIff` | packages/vinyl-observable/src/observable/combineData.ts:62-64 | The first listener to come back finds the inputs' record exactly when the record was right before or the one published last differs from the inputs |
| `Hls.ReadLine` | packages/vinyl-hls-parser/src/parse/parseUtil.ts:15-20 | Reads a line and its ending, of one or two characters |
| `Hls.SkipWhitespaceLine` | packages/vinyl-hls-parser/src/parse/parseUtil.ts:26-38 | Skips a line of white space, or leaves the cursor where it was |
| `Hls.ParseAttributes` | packages/vinyl-hls-parser/src/parse/parseAttributes.ts:17-48 | The cursor loop ends, and of a printed attribute list, whatever its values hold and whichever are quoted, it returns the map of its last values, without the key `__proto__` |
| `Hls.AttributesBack` | packages/vinyl-hls-parser/src/parse/parseAttributes.ts:17-48 | Parsing undoes printing for every attribute list but for the key `__proto__`: keys without an equals sign, quoted values without quotes, others without commas and line breaks |
| `Hls.AttributesBackIff` | packages/vinyl-hls-parser/src/parse/parseAttributes.ts:17-48 | The map of the last values comes back exactly when no key is `__proto__` |
| `Hls.ProtoLost` | packages/vinyl-hls-parser/src/parse/parseAttributes.ts:38-45 | `__proto__=x` is read as no attribute at all: storing a text there stores nothing |
| `Hls.DateRangeBack` | packages/vinyl-hls-parser/src/parse/parseMediaPlaylist.ts:285-319 | A date range printed as attributes in any order and quoting is read back field by field, but for a client attribute `__proto__`, the variables of its client attributes replaced; an unknown variable is an error, and a range without an id, or without both a start and END-ON-NEXT, is passed over |
| `Hls.DateRangeBackIff` | packages/vinyl-hls-parser/src/parse/parseMediaPlaylist.ts:285-319 | Without variables a printed date range comes back exactly when it has an id and either a start or END-ON-NEXT, and no client attribute `__proto__` |
| `Hls.ReadSegment` | packages/vinyl-hls-parser/src/parse/parseMediaPlaylist.ts:97-133 | The loop from EXTINF to the address consumes the lines the state machine consumes while it waits |
| `Hls.ParseMediaPlaylist` | packages/vinyl-hls-parser/src/parse/parseMediaPlaylist.ts:51-258 | The nested loops always consume input, end, and return what the line-by-line state machine says of the text, or fail where it does |
| `HlsWritten.SpanRead` | packages/vinyl-hls-parser/src/parse/parseMediaPlaylist.ts:331-337 | `n@o` is a length and an offset, `n` a length |
| `HlsWritten.AddressRead` | packages/vinyl-hls-parser/src/parse/parseMediaPlaylist.ts:56-60 | An address with variables, some braces that are none included, is read with their values; an unknown variable is an error, and without any variables the text stays |
| `HlsWritten.TextLines` | packages/vinyl-hls-parser/src/parse/parseUtil.ts:15-38 | White space in front of the header and around lines, blank lines, anything behind the header, and the kind of line ending mean nothing |
| `HlsWritten.HeaderNeeded` | packages/vinyl-hls-parser/src/parse/parseMediaPlaylist.ts:64-67 | A text that does not begin with the header is refused |
| `HlsWritten.PlaylistMeans` | packages/vinyl-hls-parser/src/parse/parseMediaPlaylist.ts:81-258 | Any playlist line by line: the last note of each kind counts for what it says; a segment has the duration in front of the comma, the sequence number plus its index, the key and the map last given, its byte range with an omitted offset going on from the segment before, its discontinuity, date and address; key methods that do not exist and unknown variables are errors |
| `HlsWritten.OpenMeans` | packages/vinyl-hls-parser/src/parse/parseMediaPlaylist.ts:100-110 | When the lines end before an address, the segment has an empty one |
| `HlsWritten.WrittenBack` | packages/vinyl-hls-parser/src/parse/parseMediaPlaylist.ts:40-258 | So the parser returns what a playlist says: any segments, notes and variables, laid out in any way |
| `HlsRuns.SameEffect` | packages/vinyl-hls-parser/src/parse/parseMediaPlaylist.ts:110-133 | The two code paths treat a BYTERANGE, DISCONTINUITY, PROGRAM-DATE-TIME or MAP line alike |
| `HlsRuns.StepsCommute` | packages/vinyl-hls-parser/src/parse/parseMediaPlaylist.ts:89-157 | In whatever state the parser is, such a line and an EXTINF line can change places |
| `HlsRuns.MovedTag` | packages/vinyl-hls-parser/src/parse/parseMediaPlaylist.ts:89-157 | So moving such a line across the EXTINF line, anywhere in any playlist, leaves the parsed playlist the same |
| `HlsRuns.OrdersAlikeIff` | packages/vinyl-hls-parser/src/parse/parseMediaPlaylist.ts:89-157 | In a state outside of a segment, a tag line and an EXTINF line can change places, the playlist returned being the same whatever follows, exactly when the outer code path does with the line what the inner one does, as far as the rest of a playlist can tell |
| `HlsRuns.CanMoveIff` | packages/vinyl-hls-parser/src/parse/parseMediaPlaylist.ts:89-157 | In a playlist, a tag line can go behind the EXTINF line, the playlist returned being the same whatever follows, exactly when what stands before is malformed or still waits for an address, or the line does the same in both places in the state it is read in: numbers are compared as numbers, variables by what a reference can find |
| `HlsRuns.MovedVersion` | packages/vinyl-hls-parser/src/parse/parseMediaPlaylist.ts:100-134 | A concrete playlist: a VERSION line moved behind EXTINF is lost, and it can be moved exactly when its number is 1, the one there is without it |
| `HlsRuns.MovedDefineIff` | packages/vinyl-hls-parser/src/parse/parseMediaPlaylist.ts:89-157 | A DEFINE line in front can be moved exactly when there are variables already and its name cannot stand in a reference or has that value already |
| `HlsRuns.RangesAreKept` | packages/vinyl-hls-parser/src/parse/parseMediaPlaylist.ts:136-142 | Every segment has the range written for it, an omitted offset going on where the range of the segment before it ended |
| `HlsRuns.RunsTile` | packages/vinyl-hls-parser/src/parse/parseMediaPlaylist.ts:136-142 | Ranges that follow on each other tile without gaps: each begins at the first one's offset plus all lengths between |
| `HlsRuns.SegmentsAreNumbered` | packages/vinyl-hls-parser/src/parse/parseMediaPlaylist.ts:143-154 | When MEDIA-SEQUENCE comes before all segments, segment k has its number plus k |
| `HlsRuns.LinesBack` | packages/vinyl-hls-parser/src/parse/parseUtil.ts:15-38 | Splitting undoes joining: clean lines come back one by one |
| `HlsRuns.TextIsLines` | packages/vinyl-hls-parser/src/parse/parseMediaPlaylist.ts:51-258 | A text of clean lines behind the header says what its lines say |
| `Validation.CollectParts` | packages/vinyl-validation/src/validation/ObjectSchema.ts:76-101 | The loops that push errors, over properties, elements, positions, record keys with their values, and set members, stop where fail-fast stops and report what the specification reports |
| `Validation.FirstPart` | packages/vinyl-validation/src/validation/andValidators.ts:93-99 | The parts one by one until one has errors |
| `Validation.ChoosePart` | packages/vinyl-validation/src/validation/orValidators.ts:126-154 | The loop that keeps the deepest errors so far |
| `Validation.ValidateValue` | packages/vinyl-validation/src/validation/Validator.ts:205-242 | Every validator tree reports, fail-fast or not, the error paths of the specification, or throws where it does |
| `Conformance.AcceptsIff` | packages/vinyl-validation/src/validation/Validator.ts:205-242 | A validator accepts exactly the values that conform to it, on every value on which it does not throw, fail-fast or not: all of an intersection and some of a union conform, every property is there and conforms or is missing and optional, every element, position, key, entry and member conforms, and so do all links of a schema |
| `Conformance.GuardedAcceptsIff` | packages/vinyl-validation/src/validation/Validator.ts:205-242 | And a validator that takes nothing apart unasked does on every value, however it is asked |
| `Conformance.ReportsWrong` | packages/vinyl-validation/src/validation/Validator.ts:222-228 | Every reported path leads by keys and positions to a place where something is wrong |
| `Conformance.ReportsIff` | packages/vinyl-validation/src/validation/ObjectSchema.ts:76-101 | Where all parts are asked, collecting reports exactly the wrong places |
| `Validation.Relocated` | packages/vinyl-validation/src/validation/Validator.ts:222-228 | Validating under a longer path moves every error there and changes nothing else, so the choice of the deepest does not depend on where the value sits |
| `Validation.PathsExtend` | packages/vinyl-validation/src/validation/Validator.ts:222-228 | Every reported path extends the given one |
| `Validation.FailFastAgrees` | packages/vinyl-validation/src/validation/Validator.ts:205-242 | For every validator tree and value on which collecting all errors does not throw: fail-fast does not throw, reports at most one error, and reports none exactly when collecting reports none |
| `Validation.OneAnswer` | packages/vinyl-validation/src/validation/Validator.ts:218-240 | `isValid`, `validate` and `assert` give one answer at every path, and the error `assert` throws is the one fail-fast reports |
| `Validation.GuardedReports` | packages/vinyl-validation/src/validation/Validator.ts:205-242 | A validator in which everything that takes a value apart stands behind one that asks for such a value never throws, fail-fast or not |
| `Validation.GuardedAnswer` | packages/vinyl-validation/src/validation/Validator.ts:218-240 | So it gives one answer however it is asked |
| `Validation.AnswersCanDiffer` | packages/vinyl-validation/src/validation/orValidators.ts:126-154 | Otherwise not: a union of a pair and of anything, on a pair with a wrong first and nothing second, is accepted fail-fast and throws when all errors are collected |
| `Validation.DeepestChosen` | packages/vinyl-validation/src/validation/orValidators.ts:126-154 | When all alternatives fail, the errors of the last of the deepest ones are reported, or the path itself when none is deeper than it |
| `Validation.PartialAccepts` | packages/vinyl-validation/src/validation/ObjectSchema.ts:104-114 | What a schema accepts, its `partial` accepts, through any chain of rebuilt links |
| `Validation.PartialDeepAccepts` | packages/vinyl-validation/src/validation/ObjectSchema.ts:116-126 | What a schema accepts, its `partialDeep` accepts, at any depth |
| `Conformance.PartialAcceptsIff` | packages/vinyl-validation/src/validation/ObjectSchema.ts:104-126 | `partial` accepts exactly the values whose properties, as far as they are there, conform, and `partialDeep` at any depth; what else the chain asks stays |
| `Conformance.RestAccepted` | packages/vinyl-validation/src/validation/ObjectSchema.ts:104-114 | Whatever properties are taken from an object that conforms, the rest is accepted |
| `Duration.Stringify` | packages/vinyl-mpd-parser/src/duration/duration.ts:79-104 | The date and time parts appended step by step are the printed form |
| `Duration.LexicalRead` | packages/vinyl-mpd-parser/src/duration/duration.ts:54-72 | Every lexical duration, with or without sign, is read as the sum of its parts |
| `Duration.ReadIff` | packages/vinyl-mpd-parser/src/duration/duration.ts:29-72 | A text is read exactly when it is a sign, a `P` and the groups, each of which may be missing, and it stands for the sum of such groups; anything else is refused |
| `Duration.GroupsBack` | packages/vinyl-mpd-parser/src/duration/duration.ts:29-30 | The optional groups of the pattern match exactly the parts written, none of them taken for another |
| `Duration.DecimalBack` | packages/vinyl-mpd-parser/src/duration/duration.ts:98 | Every number of thousandths printed in decimals, trailing zeros dropped, is read as that number |
| `Duration.PartsSum` | packages/vinyl-mpd-parser/src/duration/duration.ts:83-89 | Years, months, days, hours, minutes and the rest, each from a remainder of the one before, add up to the whole |
| `Duration.PrintedIsLexical` | packages/vinyl-mpd-parser/src/duration/duration.ts:99-103 | Every number prints as a lexical duration: at least one component, no `T` without a time part, fractions only in seconds |
| `Duration.ReadBack` | packages/vinyl-mpd-parser/src/duration/duration.ts:54-104 | Reading what was printed gives every number back, negative ones too, rounded to the nearest thousandth of a second |
| `Duration.ThousandthsReadBack` | packages/vinyl-mpd-parser/src/duration/duration.ts:54-104 | Whole thousandths come back exactly |

## Left out

- TrackState.Transmuxing.Transmux: requires that the fragment headers it writes stay below 4 GiB, the limit of a box size; the original would write a wrapped size and then look for the `trun` in the wrong place. The `duration` it returns, a quotient in seconds for display, is not modelled.
- TrackState.Transmuxing.EmitTs: the `duration` in the result is left out, here and in TransmuxAdts and TransmuxMpegTs.
- TrackState.Transmuxing.TransmuxAdts: the `duration` in the result is left out.
- TrackState.Transmuxing.TransmuxMpegTs: the `duration` in the result is left out, and headers stay below 4 GiB.
- Sps.SizeRecovered: says nothing of cropping, because the code does not read it; profile 135, which the standard extends and the code does not, is excluded.
- Sps.NalUnitSizeRecovered: is about the bytes before an encoder escapes them; SpsEscape says what the code, which does not undo that, makes of the bytes as they are sent. Which other parameter sets with such a run still give their size by chance is not described.
- TransmuxRun.EveryFragmentPlaced: speaks of the decode times the fragments are given; what the 32-bit box keeps of them is DecodeTimeReadIff.
- TransmuxContent.VideoSurvives: is about calls that hand out a video fragment, VideoShownIff says when, whose sizes and offsets fit their 32-bit fields; the same goes for AudioSurvives and AudioShownIff.
- Di.Container.Get: factories are scripts of reads and registrations that do not catch errors. Promises, factories that throw errors of their own, registrations after the factory has returned, and a factory named `__enumerableGuard` are not modelled.
- XmlRoundTrip.RoundTrip: attribute values and text are strings as printed, the `parse` and `stringify` of a rule being inverse to each other; an empty array and an absent one are the same; object graphs are trees, so the check for shared nodes never fires; property names that clash with inherited ones are excluded. Names and given prefixes are XML names, the prefix `xmlns` and attributes named `xmlns` or in the namespace of `xmlns:` excluded; namespaces are not empty and hold no double quote, which would end the declaration; indentation and newline are white space.
- XmlLost.RoundTripIff: the same limits as RoundTrip.
- Di.Container.Lookup: as for Get.
- Di.Container.Dispose: disposing an object runs no code that reads the container; a key first read while disposal is under way, which the original still builds, is not modelled.
- XmlWriting.XmlWriter.Stringify: promises cleared prefixes after a document only; after a schema error `usedPrefixes` and `traversed` stay filled in the original, and what a writer used again after one makes of them is left out.
- XmlHandling.ParseXmlHandlerImpl.StartElement: attaches the element to its parent when it ends and not when it starts; the parent cannot be observed in between. `clone` and `toJSON` of elements are left out.
- XmlParsing.ParseXml: positions and wording of errors are left out, and characters are code points.
- Observable.MutableValueImpl.Notify: callbacks subscribe, unsubscribe, dispose or throw; calling `invalidate` from a callback, which starts a pass inside the pass, is not modelled.
- CombineRuns.RecordIsCurrent: inputs are plain mutable values, each under one key, that are not disposed and have no other subscribers; one that throws in front of the combined value would keep it from hearing. Values are compared as Dafny compares them, so a number that is not equal to itself is not modelled.
- CombineCalls.ListenersTold: listeners that come to listen or set inputs while they are told are not part of this statement; RecordIsCurrent and CurrentIff speak of those.
- CombineRuns.CurrentIff: values come from a universe that has one the script never sets.
- Mapped.Subscription.Deliver: a mapped value that is invalidated, and so delivers an equal value again, is left out.
- Mapped.SubDataController.GetTransformed: setters of mapped values and `invalidate` on them are left out; getters are functions of their argument.
- Hls.ParseMediaPlaylist: how a text reads as a number is a parameter, which knows exact numbers and what is none, but no infinite number; variables named like a property every object inherits are left out.
- XmlMeaning.ParsedMeans: texts that stand next to each other are one text; white space between attributes is not left out; a document that breaks off inside of an element is BrokenOffIff.
- TransmuxInit.VideoDeclared: parameter sets have less than 64 KiB, the limit of their length fields, and init segments less than 4 GiB.
- Validation.FailFastAgrees: speaks of values on which collecting does not throw; GuardedReports says when that is certain, and AnswersCanDiffer what can happen otherwise.
- Validation.ValidateValue: errors are paths without messages; descriptions, JSON Schema fragments and symbols as keys are left out. Values are trees.
- Duration.ReadBack: numbers are exact, so the rounding of binary floating point and the exponents it prints for huge numbers are not modelled; the rounding to thousandths is.
- HEVC, encryption, CRC checks and continuity counters: the code does not look at them.
- The main playlist parser, the DASH rule table, frame rates, ratios and the byte ranges of manifests: tables and one-pattern functions.
- `Signal`, `EventHostImpl`, the merging of rules, tasks, caches and requests: they rest on clocks, the network or lists that are not part of this model.
- Error classes, logging, persistence, the website, the page templates, the icons and the build tools.
