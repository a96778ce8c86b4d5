# Verified model of the SDR client's protocol, keying, memory and display cores

This project models, in Dafny, the parts of the radio program that keep state and are easy to
get subtly wrong, and proves what they promise.

| file | what it is about |
|---|---|
| `MorseCode`, `CwSchedule`, `CwStream`, `Ring`, `CwGen`, `CwRun` | the Morse generator: what one text queues, the key line as a plain stream and the ramp that follows it, the generator with its growing ring, its sample clock and its lossy record, and what whole runs of it key |
| `SpscRing` | the lock-free rings between the DSP, service and PipeWire threads, as two processes that interleave freely, with indices modulo 2^32 |
| `TciIq`, `TciIqRun`, `SampleClock`, `TciAudio` | what a subscribed TCI client gets: IQ blocks with the centre frequency of their frames, over single chunks and over whole runs, the clock that puts a change of centre on the stream, and the decimated RX audio with its packet counters |
| `TciKeying` | who keyed the radio: connections, commands, reporter and queued unkeys and the TX thread's own decision as steps of one machine |
| `TciText`, `TciTextLaws`, `TciSplit` | the text protocol: what a received text means, whoever wrote it, and the in-place splitting that computes it |
| `GuiState`, `GuiEvents`, `GuiLaws`, `GuiHandlers`, `Ctun` | the operating state: what every event does to it, per-band, per-mode and per-AGC-group memories kept by handlers that set off one another, the power requests, the two VFOs, and the CTUN centre |
| `Waterfall`, `RowHistory`, `NoiseFloor` | the waterfall's two images, its texture cache, and the noise floor read off a histogram |
| `Panadapter`, `PanadapterLaws` | MAX decimation, the two coverage masks of the spectrum trace and its colours, and what their pixels show |
| `Spots`, `SpotLabels` | the DX-spot store and the packing of its labels |
| `BandTable` | the per-band table in the settings file |
| `Arith`, `Options`, `Sequences` | bounds, conversions, quotient and remainder by a variable; a value that may be missing; concatenation |

The C code changes its structs and buffers in place; so do the classes and methods here. Each of
them is proved against a function of the old state, and the promises are proved of those functions,
for all inputs and all runs. Ghost fields keep what the rings and queues stand for: everything ever
queued, pushed, sent or shown.

## Where the code does otherwise than one might expect

Each of these is proved with the exact condition and, where it needs one, a run or an input.

- A `trx` command only moves the MOX button; the TX thread decides slot by slot whether the radio is
  keyed. A reporter tick that finds the radio newly unkeyed forgets the keyer even while the button is
  still down (the dial left the band for a moment, or the first slot has not come yet). When the gate
  allows again, the radio transmits on a key raised by `trx` that no client answers for, and its
  client's leaving does not unkey (`KeyForgotten`). With no unkey queued a keyer is remembered if and
  only if no such tick came after the last key-down command (`KeyIsAnsweredFor`). What always holds is
  the TX audio side: the exciter listens to TCI only while a connected client owns it or an unkey is on
  its way (`EveryRunIsSafe`).
- The client remembered is the last one to send a key-down, accepted or not. One that is refused because
  another owns the TX audio ends the other's over by leaving (`DepartureEndsTheOver`,
  `RefusedClientEndsTheOver`, `KeyerIsTheLastSender`).
- The gap owed after a text is local to one send. A second text onto a busy generator runs into the
  first unless it begins with a blank (`TwoSendsAreOne`).
- With no ramp at all, a generator whose queue ends key down is idle one sample later than the
  samples that remain (`HardKeyingNeedsOneMore`).
- Dots and gaps settle at every weight, but a dash reaches full amplitude only if it is as long as the
  ramp, which a light weight need not give (`EverySegmentSettles`, `LightDashFallsShort`). From weight 50
  up, the only one the program itself uses, it always is (`HeavyDashReaches`).
- The digital power cap is meant to be enforced on the stored drive. A band that comes up in the same
  digital mode and finds the slider already at its remembered value enforces nothing, by the dial or by
  a VFO swap whose own mode does not take over: the stored drive ends above the cap, although what the
  transmitter is told does not (`CapBreaksExactly`, `StaleSlider`).
- A band that remembers a mode without a button, or a VFO parked in one, does not get that mode back
  (`BandMemoryNeedsAButton`, `TwoSwapsRestore`).
- The scan for the centre of an IQ frame stops at the first change that lies ahead of it. A change noted
  behind that one is missed even if it is due, so the change that labels a frame is the last one due
  exactly when no change ahead of it was noted before one that is not (`LabelsAreInForce`,
  `ChangesOutOfOrder`).
  Positions do come out of order when the clock behind them starts over after a stall, and exactly when
  its offset has grown by more than the time between the changes (`StampsTurnBack`, `StampsAscend`).
- A client that starts IQ between the pump's look at the noted changes and its own turn is taken for one
  far behind: it is led through the whole ring, and with every slot due its frames get a centre older
  than its start, or none at all from a ring not yet written to (`TurnIsRight`, `StartedLate`).
- Two changes of centre inside one IQ block give the frames between them the second centre
  (`TwoChangesBlur`).
- A callsign longer than its field is looked up whole and stored cut, so it is stored again at every
  announcement (`LongCallsMayRepeat`).
- Spot labels never overlap in front of a radio of the program's own, which is the only place it lays
  them out. The layout's branch for a server lets two labels overlap, exactly when one is pushed under
  the server's readout and the other under the meter, one or two rows apart (`OverlapExactly`,
  `ServerLabelsMayOverlap`).

## Model

| member | source | states |
|---|---|---|
| MorseCode.MorseReadsBack | src/engine/cw_gen.c:56-77 | the code the sender has for a character, in either case, leads a receiver down the standard's code tree to that character in upper case |
| MorseCode.KeyableIsInTree | src/engine/cw_gen.c:56-77 | a character has a code if and only if it, or the capital it stands for, is a sign of the receiver's tree |
| MorseCode.LettersAreKeyed | src/engine/cw_gen.c:57 | every letter has a code, small letters that of their capitals |
| MorseCode.MorseIsUnambiguous | src/engine/cw_gen.c:56-77 | no two different characters of the alphabet share a code |
| CwSchedule.RoundTrip | src/engine/cw_gen.c:150-183 | at weight 50 a receiver that knows only unit lengths (marks 1 and 3, gaps 1, 3 and 7) reads from the segments of one send from idle the text with every letter as its capital, whatever the receiver's tree does not have dropped, blank runs made one, blanks at both ends gone |
| CwSchedule.RecordTellsWhatWasHeard | src/engine/cw_gen.c:165-180 | the characters recorded for the operator are the text as keyed, and each carries a schedule position at which exactly the characters up to it have been heard |
| CwSchedule.TwoSendsAreOne | src/engine/cw_gen.c:150-183 | two sends in a row key the same schedule as one send of both texts if and only if the second has no sign of the receiver's tree or begins with a blank |
| CwStream.PullInTwo | src/engine/cw_gen.c:191-221 | pulling n samples and then m gives the samples, key-down count, position and ramp of pulling n + m |
| CwStream.KeyDownTotal | src/engine/cw_gen.c:191-221 | once a queue has been played out, the key-down counts add up to the total length of its marks |
| CwStream.RampIsGradual | src/engine/cw_gen.c:206-212 | whatever the key does, also at an abort in mid-mark, the ramp moves by at most one step a sample |
| CwStream.SegmentSettles | src/engine/cw_gen.c:191-221 | a mark at least as long as the ramp ends at full amplitude and such a gap ends at rest, wherever it stands in the queue |
| CwStream.IdleExactly | src/engine/cw_gen.c:240-243 | the generator is idle after k samples if and only if k covers the samples left and the ramp's way down from where the last of them leaves it |
| CwStream.IdleInTime | src/engine/cw_gen.c:240-243 | the samples left and one full ramp always suffice to come to rest |
| CwStream.HardKeyingNeedsOneMore | src/engine/cw_gen.c:206-207 | without a ramp the samples left suffice on their own if and only if the queue does not end key down |
| CwStream.OvershootReturns | src/engine/cw_gen.c:110-116 | a ramp left above its range by a shorter ramp setting stays while the key is held and is back in range after exactly the excess once it is up |
| CwGen.RampFitsDot | src/engine/cw_gen.c:87-90 | whatever ramp is asked for, its length is shorter than a dot |
| CwGen.DotIsOneUnit | src/engine/cw_gen.c:80-84 | a dot is the number of samples nearest to 1.2 s over the words per minute, speeds beyond 1 to 60 taken as the nearest of them |
| CwGen.DashIsWeighted | src/engine/cw_gen.c:85-86 | a dash is the number nearest to three dots weighted, at least 1 |
| CwGen.RampIsAsAsked | src/engine/cw_gen.c:87-90 | the ramp is the number of samples nearest to the milliseconds asked for, but no more than nine tenths of a dot |
| CwGen.DashAtFifty | src/engine/cw_gen.c:85-86 | at weight 50 a dash is exactly three dots, with rounding |
| CwGen.EverySegmentSettles | src/engine/cw_gen.c:79-91 | under every ramp setting and weight, every gap a text queues comes to rest and every dot reaches full amplitude; a dash does if and only if it is as long as the ramp |
| CwGen.HeavyDashReaches | src/engine/cw_gen.c:85-90 | from weight 50 up a dash is never shorter than the ramp |
| CwGen.LightDashFallsShort | src/engine/cw_gen.c:85-90 | at weight 10, 20 words a minute and a 60 ms ramp it is, and the dash falls short |
| CwGen.SoundedIsPrefix | src/engine/cw_gen.c:227-230 | on a record with ascending ends, the place where the early-exit scan stops counts all characters that have finished sounding |
| CwGen.SendStaysSound | src/engine/cw_gen.c:164-182 | a send keeps the schedule exact (samples left to play are max(0, end - clock)) and the recorded ends ascending |
| Ring.PutHolds | src/engine/cw_gen.c:134-137 | writing at the tail of a ring with room adds exactly that entry behind what it held |
| Ring.DropHolds | src/engine/cw_gen.c:142-148 | moving the head on gives up exactly the oldest entry |
| Ring.Grow | src/engine/cw_gen.c:124-133 | a full ring moved to a buffer of twice the size holds the same entries in the same order and has room |
| CwGen.CwGen.constructor | src/engine/cw_gen.c:93-107 | a new generator has an empty exact schedule, an empty record and the timing of its settings |
| CwGen.New | src/engine/cw_gen.c:93-107 | there is a generator if and only if the sample rate is at least 1000 Hz |
| CwGen.CwGen.SetTiming | src/engine/cw_gen.c:79-91 | a live speed change sets dot, dash and ramp and leaves queue, record and clock as they are |
| CwGen.CwGen.SetRamp | src/engine/cw_gen.c:110-116 | a live ramp change sets only the ramp, never below zero milliseconds |
| CwGen.CwGen.PushSeg | src/engine/cw_gen.c:121-138 | a segment of positive length joins the queue and moves the schedule end by its length, with or without growing the ring; any other changes nothing |
| CwGen.CwGen.PushChar | src/engine/cw_gen.c:142-148 | a character is recorded at the present schedule end; a full ring of 256 forgets only its oldest |
| CwGen.CwGen.SendText | src/engine/cw_gen.c:150-183 | a send appends exactly the segments and characters of the text, from idle on a fresh record starting at the clock, from busy behind the queue |
| CwGen.CwGen.Flush | src/engine/cw_gen.c:185-189 | an abort empties queue, current segment and record, sets the schedule end to the clock, and leaves the ramp where it is |
| CwGen.CwGen.Pull | src/engine/cw_gen.c:191-221 | n samples of output, the key-down count, the position and the ramp are those of the plain stream of the queued segments; the clock moves by n; n of zero or less does nothing |
| CwGen.CwGen.IsIdle | src/engine/cw_gen.c:240-243 | idle is told exactly when nothing is left to sound and the ramp is at rest |
| CwGen.CwGen.Progress | src/engine/cw_gen.c:223-238 | the display gets the retained characters cut to its buffer and the number of them sounded by now |
| CwRun.KeysMarks | src/engine/cw_gen.c:150-183 | whenever it is sent, a text queues exactly the marks of its characters |
| CwRun.PullPays | src/engine/cw_gen.c:191-221 | a pull returns exactly as many key-down samples as it takes off those owed |
| CwRun.PaidInFull | src/engine/cw_gen.c:240-243 | what is owed is never negative, and nothing once the queue has been played out |
| CwRun.Operate | src/engine/cw_gen.c:79-243 | over any run of texts, pulls, speed and ramp changes and aborts, the key-down samples returned, those dropped by aborts and those still owed are together those owed at the start and the marks of the texts, each at the speed it was sent with; an idle generator owes none |
| SpscRing.NextKeepsInv | src/tci_server.c:1361-1390 | every step of producer or consumer, in any interleaving, keeps the ring's invariant |
| SpscRing.WriteKeepsInv | src/tci_server.c:1365-1369 | writing a slot, under a possibly stale tail and wrapped indices, overwrites no unread sample |
| SpscRing.RingIsFaithful | src/tci_server.c:1376-1390 | in every execution, across index wraps: the consumer has a prefix of what was accepted, in order; occupancy read off the indices is right and at most the capacity; unread samples are still in their slots; at rest the producer's total is the consumer's total plus the unread |
| SpscRing.DropsOnlyWhenFull | src/tci_server.c:1381-1387 | a push leaves samples out only from its end and only when the ring is full as it sees it |
| SpscRing.PusherMayGoOn | src/tci_server.c:1377-1390 | a push goes on exactly while it has samples and saw room, and is then counted and published |
| SpscRing.ReaderMayGoOn | src/tci_server.c:1192-1201 | a read may take any number of the samples published and no more, and goes on to its end |
| SpscRing.PushAlone | src/tci_server.c:1377-1390 | a push undisturbed by reads puts in exactly as many of its samples as there is room for, from the first on |
| SpscRing.ReadAlone | src/tci_server.c:1192-1201 | a read of up to as many samples as are unread gets exactly the oldest of them |
| SpscRing.Fill | src/tci_server.c:1361-1370 | the push loop stores as many samples as there is room for, in their slots, and moves the head by their number |
| SpscRing.CopyOut | src/tci_server.c:1200-1201 | the copy loop reads the oldest unread samples in order |
| SpscRing.Buffer.Push | src/tci_server.c:1376-1390 | what fits of a push is accepted behind what was, and the head's difference, added to the total, is its number |
| SpscRing.Buffer.Take | src/tci_server.c:1192-1201 | a read takes the oldest unread samples, as many as wanted and there are |
| SpscRing.Buffer.Play | src/engine/audio_pw.c:49-58 | a playback callback gets the queued frames in order and silence for the rest, and consumes only what it played |
| TciIq.LabelIsTheCentreInForce | src/tci_server.c:1316-1319 | the change the scan reaches for a frame is the last one at or before its position if and only if no change that lies ahead of it was noted before one that does not |
| TciIq.AlwaysInOrder | src/tci_server.c:1316-1319 | that is so at every position if and only if the positions of the changes ascend |
| TciIq.StampTellsTheLabels | src/tci_server.c:1313-1325 | a stamp is right for the frames before its offset and for the last; it is right for the whole block if and only if the centre stayed put from the offset on |
| TciIq.OneChangeIsExact | src/tci_server.c:1313-1325 | with at most one change after the first frame the stamp gives back every frame's centre |
| TciIq.TwoChangesBlur | src/tci_server.c:1321-1323 | a block of 2048 frames as queued, with two changes, from whose header a client reads the wrong centre for the frame between them |
| TciIq.ClientReadsTheCentre | src/tci_server.c:1241-1257 | from the header words of layout 1 or 2 a client reads the centre of the first and last frame, and of every frame when a change was taken up at most once |
| TciIq.BlockWords | src/tci_server.c:1230-1257 | the other words say rate, float format, length, kind of stream and two channels, and the block's number wherever the layout has a counter |
| TciIq.NotedEventIsLast | src/tci_server.c:1695-1696 | noting a change keeps the last 64 changes in the ring, also when the count wraps |
| TciIq.StampLog.Note | src/tci_server.c:1683-1698 | the log grows by every positive centre that differs from the last one noted, and the ring keeps its last 64 entries |
| TciIq.TakeUp | src/tci_server.c:1317-1325 | the inner loop takes up the changes in the order noted, up to the first that lies ahead, leaves the last one as the label, and enters it in the stamp as first label or as the offset's |
| TciIq.BlockDone | src/tci_server.c:1230-1262 | a full block queued under its header keeps the client's frame stream and restarts nothing but the block; its number is its place since the stream's start |
| TciIq.IqClient.Start | src/tci_server.c:874-886 | `iq_start` drops the block in progress, restarts the counter and labels from now |
| TciIq.IqClient.SetRate | src/tci_server.c:857-872 | one of the four rates drops the block in progress and lets the counter run on; any other is ignored |
| TciIq.IqClient.Emit | src/tci_server.c:1230-1262 | sending a block neither adds to nor takes from the stream |
| TciIq.IqClient.Relabel | src/tci_server.c:1313-1325 | the changes due before a frame move label, log position and the block's stamp |
| TciIq.IqClient.Append | src/tci_server.c:1326-1330 | a frame labelled and stamped joins the stream, and a full block goes out |
| TciIq.IqClient.PutFrame | src/tci_server.c:1313-1330 | one frame joins the stream with the label in force at its position |
| TciIq.IqClient.CatchUp | src/tci_server.c:1311 | whatever its count says, a client resumes at most 64 changes back, at the oldest one still held |
| TciIq.IqClient.Pump | src/tci_server.c:1283-1331 | one chunk, also one without frames and whatever the client's count says, appends exactly its frames, conjugated if asked and each with its label from the ring as it was, to the client's stream, and says where it leaves label and count |
| TciIqRun.Serve | src/tci_server.c:1289-1335 | over any run of chunks and retunes the client follows its feed: chunk after chunk of labelled frames |
| TciIqRun.BacklogIsLog | src/tci_server.c:1283-1288 | from where a client picks up, the ring read in order is the log of changes |
| TciIqRun.TurnIsRight | src/tci_server.c:1283-1311 | a client's turn takes up nothing from before its start if and only if it started no later than the look at the ring |
| TciIqRun.StartedLate | src/tci_server.c:880-885 | a client that started later is led through the whole ring, and with every slot due gets the ring's newest centre in place of its dial |
| TciIqRun.BlocksAreTheFeed | src/tci_server.c:1230-1262 | so its blocks and waiting frames together are that feed: frame j of block k is frame 2048 * k + j of the stream, under a header that describes its block |
| TciIqRun.SamplesSurvive | src/tci_server.c:1326-1330 | whatever the centre does in a run, no sample is lost, repeated or moved; I is sent as it came, Q with its sign changed if and only if the stream is conjugated |
| TciIqRun.FrameIsConjugated | src/tci_server.c:1326-1329 | in a chunk the frame made of a sample has its I, and its Q negated under conjugation |
| TciIqRun.LabelsAreInForce | src/tci_server.c:1308-1325 | in any run in which the client is never more than 64 changes behind, the change that labels a frame is the last one noted by then at or before its position, or the dial the stream was started with when there is none, if and only if no change ahead of the frame was noted before one that is not |
| TciIqRun.LabelsAreFinal | src/tci_server.c:1308-1325 | if no change is noted behind frames already served, that label is also the one the scan gives by all changes of the run |
| TciIqRun.BlocksTellTheCentre | src/tci_server.c:1241-1262 | in any such run a client reads off a block's words, for the block's first and last frame and for every frame when a change was taken up at most once in it, the label of the frame the block has there, next to that frame's I and Q, conjugated if asked |
| TciIqRun.ChangesOutOfOrder | src/tci_server.c:1316-1319 | a run in which the second of two changes has the smaller position and a frame behind it keeps the dial |
| SampleClock.PushKeeps | src/tci_server.c:1395-1413 | every push keeps the least offset of its second and of the second heard before it, and starts over after a pause |
| SampleClock.PushJoins | src/tci_server.c:1398-1407 | a push more than 200 ms later than the offset in hand begins a new history, any other joins it |
| SampleClock.OffsetIsTheLeast | src/tci_server.c:1687-1691 | the offset in use is the least of the two seconds heard last, and no more than 0.4 s below that of the last push |
| SampleClock.StampIsInPlace | src/tci_server.c:1685-1694 | a change is never put in front of the frames ringed by then, going by the rate since the last push, nor more than 0.4 s behind them |
| SampleClock.StampsAscend | src/tci_server.c:1689-1691 | two changes keep their order if and only if the offset has grown by no more than the time between them |
| SampleClock.StampsTurnBack | src/tci_server.c:1398-1407 | a stall of 800 ms after which a later change is put more than half a second in front of an earlier one |
| SampleClock.SampleClock.Push | src/tci_server.c:1391-1415 | a push moves the clock by one such step |
| SampleClock.SampleClock.Stamp | src/tci_server.c:1685-1694 | a change goes by time and least offset once the clock runs, and behind the frames ringed before it does |
| TciAudio.FrameIsTheMean | src/tci_server.c:1212-1217 | output frame j is the mean of the dec tap samples from j * dec on |
| TciAudio.SampleIn | src/tci_server.c:1213-1217 | one tap sample joins the sum in hand or completes a frame |
| TciAudio.StreamIsTheDecimatedTap | src/tci_server.c:1192-1227 | since the decimator was last started, packets and waiting frames are what was sent before and then the averaged tap, a frame for every dec samples, however it was chunked |
| TciAudio.DecIsTheRatio | src/tci_server.c:1207 | at the four rates a client can have, a frame is made of 48000 / rate tap samples |
| TciAudio.ClientGetsItsRate | src/tci_server.c:1192-1227 | so a client gets rate frames for every 48000 samples of the tap, frame j the mean of the 48000 / rate samples from j * (48000 / rate) on |
| TciAudio.PacketFitsBlock | src/tci_server.c:1209-1211 | a packet holds as many whole frames as fit the block size asked for |
| TciAudio.PacketWords | src/tci_server.c:1158-1173 | the words of a packet say rate, format, length, kind of stream, channels and number |
| TciAudio.ScalarIs | src/tci_server.c:1174-1183 | a float sample is sent as it is, an integer one as its product with 32767 cut off towards zero |
| TciAudio.CounterStep | src/tci_server.c:285-292 | a client's counter counts its own packets, begins again at its own fresh start and when a new key state is announced, and changes at nothing else |
| TciAudio.CountIsPacketsSinceRestart | src/tci_server.c:285-292 | the next packet's counter word is the number of packets, mod 2^32, since the client's stream started or the announced key state last changed, however often it was announced |
| TciAudio.Spread | src/tci_server.c:1174-1185 | a packet has every frame once on each channel, in order, in the client's sample format |
| TciAudio.PacketDone | src/tci_server.c:1158-1189 | a packet keeps the stream and carries the next number |
| TciAudio.AudioClient.Start | src/tci_server.c:781-796 | a fresh `audio_start` begins an empty stream with counter 0; a repeated one changes nothing |
| TciAudio.AudioClient.SetRate | src/tci_server.c:767-780 | the four rates restart the decimator and, unless a size was asked for, set the default block; other values are ignored |
| TciAudio.AudioClient.RestartCount | src/tci_server.c:286-292 | a key edge restarts the counter and leaves the stream alone |
| TciAudio.AudioServer.Announce | src/tci_server.c:286-294 | a key state other than the last announced restarts every client's counter, the same one again changes nothing: one step of the counters' machine |
| TciAudio.AudioServer.StartClient | src/tci_server.c:781-796 | a fresh `audio_start` restarts that client's counter only |
| TciAudio.AudioClient.Emit | src/tci_server.c:1158-1189 | the waiting frames go out as one packet and none wait |
| TciAudio.AudioClient.Accumulate | src/tci_server.c:1213-1217 | one tap sample into the accumulator, a whole frame into the buffer, which it never overruns |
| TciAudio.AudioClient.Feed | src/tci_server.c:1212-1219 | one tap sample and the packet it completes |
| TciAudio.AudioClient.Pump | src/tci_server.c:1204-1220 | one chunk extends the client's input by itself; from less than a packet in hand every packet sent has exactly the packet size |
| TciKeying.StepIsSafe | src/tci_server.c:615-658 | each event keeps: at most one owner and it is connected; the remembered keyer is connected; the exciter listens to TCI only with a connected owner or an unkey queued |
| TciKeying.EveryRunIsSafe | src/tci_server.c:1123-1142 | so in every interleaving of connections, commands, closes, queued unkeys, reporter ticks, TX slots and local keying from start-up, with a transmitter or without |
| TciKeying.KeyIsAnsweredFor | src/tci_server.c:376-384 | in every run, with the button down by `trx` and no unkey queued, a connected client is remembered as the keyer if and only if no reporter tick after the last key-down command saw the radio newly unkeyed |
| TciKeying.KeyForgotten | src/engine/tx_run.c:405-413 | a run in which the gate drops the key and gives it back under the held button: the radio transmits, its keyer has left, nothing will unkey |
| TciKeying.KeyDownKeys | src/tci_server.c:616-645 | with transmitter and button, a key-down from the microphone, or from TCI while no other client feeds the exciter, presses the button and remembers its sender; from TCI the exciter then listens to TCI, fed by that client alone |
| TciKeying.KeyDownFails | src/tci_server.c:632-637 | without them nothing is pressed, and from TCI the client is no owner and the source is the microphone |
| TciKeying.KeyDownTransmits | src/tci_server.c:616-645 | so an accepted key-down transmits from the next slot the gate allows, from the asked source |
| TciKeying.KeyUpUnkeys | src/tci_server.c:646-656 | a key-up takes the button up, forgets keyer and ownership, and gives the source back if the client fed the exciter; other owners stay |
| TciKeying.KeyUpStops | src/tci_server.c:646-656 | and stops the radio in the next slot, unless something else wishes to transmit |
| TciKeying.SlotKeys | src/engine/tx_run.c:799 | the TX thread keys exactly a radio that is asked to transmit and may |
| TciKeying.UnkeyRuns | src/tci_server.c:923-933 | a queued unkey takes button and source back and is gone from the queue |
| TciKeying.LeavingIs | src/tci_server.c:1123-1142 | a client that leaves frees its slot, and queues one unkey if it fed the exciter or was the keyer; the radio is not touched before that runs |
| TciKeying.TickNotes | src/tci_server.c:376-384 | a reporter tick notes whether the radio transmits, and forgets the keyer if that is newly no |
| TciKeying.FirstFreeIsTaken | src/tci_server.c:1034-1061 | a new connection takes the first free slot with a clean record |
| TciKeying.KeyerIsTheLastSender | src/tci_server.c:642-644 | in every run the remembered keyer is the last client that sent a key-down, accepted or refused, if nothing has cleared it since, and otherwise none |
| TciKeying.DepartureUnkeys | src/tci_server.c:1126-1130 | when the keyer or the owner disconnects, the unkey stays queued until it runs, and then the button is up and the source is the microphone until someone keys again |
| TciKeying.DepartureEndsTheOver | src/tci_server.c:1126-1130 | with no unkey queued, the button survives a departure if and only if the client neither fed the radio nor was remembered as its keyer |
| TciKeying.RefusedClientEndsTheOver | src/tci_server.c:630-644 | a refused key-down changes nothing but the remembered keyer, and its sender's leaving then ends the over under an owner who is still there; without it, the over goes on unless that client was remembered already |
| TciKeying.TciServer.constructor | src/tci_server.c:107 | the server starts with no client and no keyer |
| TciKeying.TciServer.OnEstablished | src/tci_server.c:1034-1061 | a connection gets the first free slot with a clean record, or is refused |
| TciKeying.TciServer.OnClosed | src/tci_server.c:1123-1142 | a close frees the slot; if it keyed the radio or owned the TX audio, both are forgotten and an unkey is queued |
| TciKeying.TciServer.OnTrxOn | src/tci_server.c:619-645 | keying with TCI audio is refused while another client owns it; either way the client is remembered as the keyer |
| TciKeying.TciServer.KeyFromTci | src/tci_server.c:628-637 | the source switches before the button; a call that fails gives back source and ownership |
| TciKeying.TciServer.OnTrxOff | src/tci_server.c:646-655 | unkeying takes the button up, forgets the keyer and the client's ownership, and the source if it was the owner |
| TciKeying.TciServer.TxOwnerLostIdle | src/tci_server.c:923-933 | the queued unkey takes the button up and the source back |
| TciKeying.TciServer.OnReporter | src/tci_server.c:376-384 | the keyer is forgotten when the published key flag is seen down for the first time |
| TciKeying.TciServer.CallSetTrx | src/gui.c:6166-6170 | the call moves the MOX button, and fails without transmitter or button |
| TciText.ParseCutPrint | src/tci_server.c:974-1000 | however a printed list of plain commands is cut off, parsing gives exactly the commands that are complete |
| TciText.SplitRoundTrip | src/tci_server.c:1092-1097 | a printed list received as one frame comes back whole if it has fewer than 1024 characters, and otherwise as its complete commands within the first 1023 |
| TciTextLaws.PiecesOfAnyText | src/tci_server.c:979-980 | the pieces of any text follow one another, each free of semicolons and closed by one, up to the last semicolon there is |
| TciTextLaws.FieldsOfAnyStretch | src/tci_server.c:982-992 | the fields of any stretch follow one another between commas, eight at most |
| TciTextLaws.NameOfAnyStretch | src/tci_server.c:993 | a name is its stretch without the blanks around it |
| TciTextLaws.CommandOfAnyPiece | src/tci_server.c:981-995 | a piece is named by what stands before its first colon and has the fields behind it as arguments |
| TciTextLaws.WhatIsTaken | src/tci_server.c:1092-1097 | of a frame no more than 1023 characters are taken, and nothing from a NUL on |
| TciTextLaws.EscapesStandFor | src/tci_server.c:516-522 | the three escapes stand for colon, comma and semicolon, every other character for itself |
| TciText.EscapeBack | src/tci_server.c:516-522 | escaping and unescaping gives the text back if and only if it contains none of the three escape characters |
| TciText.MacroTextRoundTrip | src/tci_server.c:516-522 | a text sent escaped as a macro argument arrives as one command and unescapes to itself, under that same condition |
| TciSplit.SplitArgs | src/tci_server.c:984-992 | the argument pointers found in place are the first eight comma-separated fields, each closed where it ends |
| TciSplit.Chomp | src/tci_server.c:993 | white space at the end of the moved name is closed off in place |
| TciSplit.Chug | src/tci_server.c:993 | the rest of the name moves down over the white space at its start, nothing outside it changes |
| TciSplit.SplitOne | src/tci_server.c:980-993 | a piece of the buffer becomes its command, and nothing outside the piece is touched |
| TciSplit.ProcessPayload | src/tci_server.c:974-1000 | in-place splitting executes exactly the commands of the text as received, in order |
| TciSplit.CwUnescape | src/tci_server.c:516-522 | the three escapes are undone in place and nothing after the text changes |
| Ctun.DialEndsInRoom | src/gui.c:3369-3381 | with a passband that fits the span and its margin, every dial move ends in the room |
| Ctun.RecentredInRoom | src/gui.c:3370-3373 | without CTUN, or out of the span, the centre is the dial, which is in the room if and only if the passband fits |
| Ctun.HeldInRoom | src/gui.c:3374-3379 | within the span the dial ends in the room if and only if the passband is no wider than the room |
| Ctun.CentreMovesLeast | src/gui.c:3374-3379 | the centre stays if the dial fits, else moves by the overshoot, and no nearer centre has room |
| Ctun.CentreEndsInRoom | src/gui.c:3385-3394 | whatever centre is wished for, a positive dial whose passband fits stays put and ends in the room, and the centre is the positive one nearest to the wish with room for it |
| Ctun.OffsetIsKept | src/gui.c:6297-6304 | a client's centre keeps dial minus centre, and is taken exactly, if and only if the dial stays positive |
| Ctun.EventIs | src/gui.c:3369-3394 | the dial goes where it is tuned to, a drag leaves it alone, and without CTUN centre and dial are one |
| Ctun.DialStaysInRoom | src/gui.c:3356-3394 | in every run of dial moves, drags and client centres under CTUN the dial stays positive and in the room |
| GuiState.ModeIsRemembered | src/gui.c:4366-4399 | a mode button coming down files mode, filter and AGC where they will be looked for and tells the transmitter |
| GuiState.BandMemoryNeedsAButton | src/gui.c:543-577 | after a change of band the memories agree if and only if the band's remembered mode has a button; the transmitter is up to date either way |
| GuiState.StepKeepsInv | src/gui.c:543-577 | every event, with the handlers it sets off, keeps: the band remembers mode, drive and tune power, the mode its filter, the group its AGC, and the transmitter was last told exactly the requests in force |
| GuiState.MemoriesNeverDrift | src/gui.c:513-518 | so after every event of every run |
| GuiState.CapReachesTheTransmitter | src/gui.c:3223-3238 | in no run is the transmitter told more than the cap in a digital mode |
| GuiState.BandIsTheFirst | src/gui.c:466-469 | the band found is the first of the table that holds the frequency, and none is found if and only if no band does |
| GuiEvents.DriveSliderMoves | src/gui.c:5518-5527 | a moved drive slider sets drive and slider to what rating and cap leave of it, for the band too, and tells the transmitter; unmoved it does nothing |
| GuiEvents.TuneSliderMoves | src/gui.c:5528-5533 | the tune slider likewise, without the cap |
| GuiEvents.ClientsDriveIs | src/gui.c:6137-6147 | a client's drive likewise, the slider moving only where the cap bites |
| GuiEvents.ClientsTuneIs | src/gui.c:6148-6155 | a client's tune power moves no slider |
| GuiEvents.NewCapIs | src/gui.c:5862-5869 | a new cap brings a higher digital drive down, with slider and band memory, and the transmitter is told |
| GuiEvents.ChosenFilterIs | src/gui.c:3935-3948 | a chosen preset brings the mode's own edges of that preset, Var1 and Var2 the edges last dragged |
| GuiEvents.DraggedFilterIs | src/gui.c:3953-3970 | dragged edges are kept within 20 kHz and 50 Hz apart, and are those of Var1 when a preset was selected |
| GuiEvents.PickedAgcIs | src/gui.c:4437-4446 | a picked AGC is noted for the modes it is shared with: CW, AM, digital or the others |
| GuiEvents.NewModeIs | src/gui.c:4366-4399 | a mode button brings the mode's last filter or its default, its edges and its group's AGC, and the band notes the mode |
| GuiEvents.NewModesPowerIs | src/gui.c:4396-4397 | and in a digital mode the drive comes under the cap |
| GuiEvents.TickFindsBand | src/gui.c:466-469 | a tick finds the band the dial is in |
| GuiEvents.TickFindsNone | src/gui.c:543-577 | out of every band a tick leaves requests and mode alone |
| GuiEvents.DialMoves | src/gui.c:3369-3381 | a dial move is the CTUN rule with the edges in force: the passband ends in the span if it fits at all |
| GuiEvents.ClientsCentreIs | src/gui.c:6297-6304 | under CTUN a client's centre keeps the dial's distance, without it is a dial move |
| GuiEvents.SwapIs | src/gui.c:3457-3481 | a swap takes the parked frequency, parks the active frequency and mode and turns the letter; refused while keyed |
| GuiLaws.ModeComesBack | src/gui.c:4372-4391 | a mode left and re-entered has its filter, the filter's edges and its AGC again |
| GuiLaws.EdgesFollowTheFilter | src/gui.c:3935-3970 | the passband edges are those of the selected filter after every event but a client's explicit edges |
| GuiLaws.BandIsTheDials | src/gui.c:543-545 | after a tick the band is the first of the table the dial lies in, or none |
| GuiLaws.BandBrings | src/gui.c:543-577 | a change of band brings, for the band whose edges hold the dial, its mode, tune power and drive, capped unless neither mode nor slider moves, and touches no other band's memories |
| GuiLaws.BandComesBack | src/gui.c:543-577 | a band left by the dial and re-entered has its mode, tune power and drive again, if that drive respects the cap |
| GuiLaws.CapKeptUnlessSliderIsStale | src/gui.c:543-577 | a change of band leaves the stored drive above the cap if and only if mode and slider both stand where the new band wants them and it remembers more than the cap |
| GuiLaws.CapBreaksExactly | src/gui.c:3202-3214 | after any event the stored drive respects the cap if and only if it is not such a change of band, by the dial or by a VFO swap whose own mode does not take over |
| GuiLaws.StaleSlider | src/gui.c:566-570 | a run of slider, client, cap and dial that does: the stored drive ends above the cap, the transmitter's does not |
| GuiLaws.TwoSwapsRestore | src/gui.c:3457-3481 | two swaps restore both frequencies, both modes and the letter if and only if the parked VFO was set and its mode has a button |
| GuiLaws.StartedInvariant | src/gui.c:7680-7686 | start-up meets the invariant if and only if the start-up mode and the other bands' remembered modes have buttons |
| GuiHandlers.Gui.PushCfg | src/gui.c:3216-3255 | the transmitter, if up, hears drive, tune power and mode, the drive capped in a digital mode |
| GuiHandlers.Gui.SetDriveSlider | src/gui.c:3208-3210 | a slider set to another value runs its handler inside, through the cap and back; set where it stands it does nothing |
| GuiHandlers.Gui.OnDriveChanged | src/gui.c:5518-5527 | the drive is the slider's value under the cap, filed and told once |
| GuiHandlers.Gui.DigiDriveClamp | src/gui.c:3202-3214 | the cap is enforced on drive, band memory and slider, and whether it bit is returned |
| GuiHandlers.Gui.SetTuneSlider | src/gui.c:569-570 | the same for the tune power |
| GuiHandlers.Gui.OnTuneDriveChanged | src/gui.c:5528-5533 | the tune power is the slider's value, filed and told |
| GuiHandlers.Gui.TciSetDrive | src/gui.c:6138-6146 | a client's drive is one event of the state machine: clipped to the rating, capped, filed, told |
| GuiHandlers.Gui.TciSetTuneDrive | src/gui.c:6148-6155 | a client's tune power likewise |
| GuiHandlers.Gui.OnPrefDigiMax | src/gui.c:5862-5869 | a new cap likewise |
| GuiHandlers.Gui.FilterSelect | src/gui.c:3935-3948 | a chosen filter is remembered for the mode and sets the edges; an index out of range does nothing |
| GuiHandlers.Gui.FilterApplyVarEdges | src/gui.c:3953-3970 | edges dragged on a preset become Var1, the presets stay; Var1 and Var2 change in place; the width stays at least 50 Hz |
| GuiHandlers.Gui.TciSetFilter | src/gui.c:6129-6136 | a client's edges are taken if they are in order and leave the filter index alone |
| GuiHandlers.Gui.AgcSelect | src/gui.c:4437-4446 | a chosen AGC is remembered for the mode's group |
| GuiHandlers.Gui.AgcFollows | src/gui.c:4372-4383 | a change of group files the old group's AGC and brings the new one's |
| GuiHandlers.Gui.FilterFollows | src/gui.c:4385-4391 | the mode's last filter, or its default, with its edges |
| GuiHandlers.Gui.SetToggle | src/gui.c:563-565 | a button set down runs its handler unless it is down already |
| GuiHandlers.Gui.OnModeToggled | src/gui.c:4366-4399 | the handler amounts to entering the mode |
| GuiHandlers.BandForFreq | src/gui.c:466-469 | the scan of the band table |
| GuiHandlers.Gui.BandApply | src/gui.c:543-577 | the nested band, mode and slider handlers amount to the band being applied |
| GuiHandlers.Gui.EngineSetFrequency | src/gui.c:3369-3381 | a dial move amounts to the CTUN rule for the dial |
| GuiHandlers.Gui.EngineSetCentre | src/gui.c:3385-3394 | a centre move amounts to the CTUN rule for the centre |
| GuiHandlers.Gui.TciSetFreq | src/gui.c:6090-6095 | a client's frequency is a dial move if positive |
| GuiHandlers.Gui.TciSetCentre | src/gui.c:6297-6304 | a client's centre carries the dial along under CTUN and is a dial move without it |
| GuiHandlers.Gui.Exchange | src/gui.c:3463-3472 | the two VFOs change places, an unset one counting as a copy |
| GuiHandlers.Gui.VfoSwap | src/gui.c:3457-3481 | the band's memories come up first, the VFO's own mode wins; refused while keyed |
| NoiseFloor.BelowPermuted | src/waterfall.c:231-236 | the number of columns up to a bin does not depend on their order |
| NoiseFloor.BinIsTheDecibel | src/waterfall.c:231-236 | bins are 1 dB wide from -160 dBm on, the ends taking what lies outside |
| NoiseFloor.TargetIsAFifth | src/waterfall.c:237-238 | the target is a fifth of the columns, rounded down |
| NoiseFloor.FloorFollows | src/waterfall.c:242-248 | the first frame sets the floor to the middle of its bin, every later one moves it a twenty-fifth of the way |
| NoiseFloor.BelowSorted | src/waterfall.c:237-241 | in sorted columns at least k are up to a bin if and only if the k-th is |
| NoiseFloor.Histogram | src/waterfall.c:228-236 | every bin counts its columns, the ends taking what is outside |
| NoiseFloor.Percentile | src/waterfall.c:237-241 | the scan always stops inside the 140 bins, at the first with a fifth of the columns at or below it |
| NoiseFloor.HistogramRefinesSorting | src/waterfall.c:223-241 | from five columns on, the bin found is the bin of the (n * 20 / 100)-th smallest column; with fewer it is the lowest bin |
| NoiseFloor.FloorStaysInRange | src/waterfall.c:242-248 | whatever the frames, the tracked floor stays between -159.5 and -20.5 dBm |
| RowHistory.PushShifts | src/waterfall.c:255-261 | a push puts its row on top and moves every earlier one down by one, carried to the new width |
| Waterfall.QuantIsMonotone | src/waterfall.c:264-270 | a stronger column never gets a lower palette index; the floor of the range and below is 0, its top and above 255 |
| Waterfall.QuantIsInProportion | src/waterfall.c:264-270 | inside the window the 256 indices share it evenly |
| Waterfall.LowIsInRange | src/waterfall.c:242-250 | whatever frames have come, a range that is not pinned begins between -159.5 and -20.5 dBm |
| Waterfall.NearestKeepsOrder | src/waterfall.c:200-204 | the resampling column map never runs backwards |
| Waterfall.NearestIsInProportion | src/waterfall.c:200-204 | a column is taken from as far along the old row as it lies along the new one |
| Waterfall.WideningKeepsEveryColumn | src/waterfall.c:200-204 | widening shows every stored column |
| Waterfall.Recolour | src/waterfall.c:134-138 | every pixel becomes the palette's colour of its cell |
| Waterfall.Resample | src/waterfall.c:196-205 | every stored row at the new width, nearest columns |
| Waterfall.Scroll | src/waterfall.c:258-261 | every row moves down by one, in place |
| Waterfall.PaintRow | src/waterfall.c:266-273 | the new row on top of both images, the others untouched |
| Waterfall.PushImages | src/waterfall.c:251-273 | after a push both images agree on the scrolled history |
| Waterfall.PushExtendsTheLog | src/waterfall.c:217-277 | a push on the picture of a log gives the picture of the longer log |
| Waterfall.PixelOfTheHistory | src/waterfall.c:217-277 | the pixel in row r is today's palette colour of the r-th newest push's column, as quantised then and carried through every later width |
| Waterfall.PushIsOnTop | src/waterfall.c:264-273 | a frame appears in the top row, each column in the palette's colour of its own index |
| Waterfall.PictureStretches | src/waterfall.c:196-204 | every other pixel moves down a row, taken from the nearest column when the width is new |
| Waterfall.PictureMovesDown | src/waterfall.c:255-261 | and as it is when the width stays |
| Waterfall.NothingYet | src/waterfall.c:205-213 | rows no push has reached are in the lowest colour |
| Waterfall.WindowIs | src/waterfall.c:264-266 | the window is the pinned one, or 42 dB from the tracked floor on |
| Waterfall.Display.SetPalette | src/waterfall.c:125-142 | a palette switch recolours the whole stored history and counts as a change if there is one |
| Waterfall.Display.SetManualRange | src/waterfall.c:153-157 | a positive span pins the range, anything else unpins it |
| Waterfall.Display.EnsureSurface | src/waterfall.c:181-215 | the images have the new width: kept, resampled, or blank in the lowest colour |
| Waterfall.Display.Push | src/waterfall.c:217-277 | a frame extends the history by one row quantised in the range in force after it, and counts as one change; an empty frame changes nothing |
| Waterfall.EqualSerialsNoChange | src/gui.c:2315-2318 | short of a whole turn of the serial, equal serials mean no change in between |
| Waterfall.CopyPixels | src/gui.c:2322-2326 | the texture is the bitmap, pixel for pixel |
| Waterfall.TextureCache.Get | src/gui.c:2312-2332 | the texture handed out is the current picture unless a whole turn of the serial went by since it was taken; none before the first push |
| Panadapter.ColumnsTile | src/panadapter.c:149-154 | with at least as many columns as pixels every pixel takes a non-empty run of columns, and the runs begin with the first and end with the last |
| Panadapter.OwnerIsUnique | src/panadapter.c:149-154 | every column goes to exactly one pixel |
| Panadapter.PeakSurvives | src/panadapter.c:148-160 | MAX decimation keeps the global peak and adds nothing above it |
| Panadapter.PeakSurvivesTwice | src/gui.c:2366-2378 | also when the trace is first decimated to its own columns |
| Panadapter.MaxLoop | src/gui.c:2369-2375 | the loop finds the maximum of its run |
| Panadapter.DecimatedColumn | src/panadapter.c:149-160 | the loop over a column's run gives its maximum |
| Panadapter.PlotColumn | src/panadapter.c:148-162 | the value plotted is the run's maximum, or the interpolated level when there are more pixels than columns |
| Panadapter.TraceColumns | src/gui.c:2366-2378 | a trace with more columns than its own number is decimated to that number, any other is left |
| Panadapter.PlottedIsInRange | src/panadapter.c:130-162 | nothing is plotted outside the range of the data |
| Panadapter.HeightIsInProportion | src/panadapter.c:65-70 | a level at the top of the window is at the top of the strip, one at the bottom at the bottom, and in between in proportion |
| PanadapterLaws.LevelIsOnTheLine | src/panadapter.c:130-140 | with fewer columns than pixels the level is on the straight line between the two columns there |
| PanadapterLaws.RunIsTheSpan | src/panadapter.c:263-270 | a column's run is the span of the polyline in it |
| PanadapterLaws.FillKeepsTheArea | src/panadapter.c:266-267 | over the whole trace the fill's boundary adds up to the heights plotted |
| PanadapterLaws.BandIsTight | src/panadapter.c:273-276 | the band begins one row above the first row the widened trace touches and ends one below the last, as far as the strip goes |
| PanadapterLaws.FillIsTheShare | src/panadapter.c:297-305 | a pixel of the fill is covered by the share of its row below the boundary, to the nearest of 256 steps |
| PanadapterLaws.TraceIsTheShare | src/panadapter.c:283-288 | a pixel of the trace by the share of its row that the run, widened by 0.6 rows on either side, takes up |
| PanadapterLaws.StripIsTheColour | src/panadapter.c:324-334 | a column's word is opacity, red, green and blue of the palette's colour at its brightest level, lifted halfway to white, at 98 per cent |
| Panadapter.BandIsNotEmpty | src/panadapter.c:273-279 | the band of rows is never empty and lies in the strip |
| Panadapter.CutLosesNothing | src/panadapter.c:273-323 | above the band both masks are empty, below it the fill is full and the trace empty, so cutting to it loses nothing |
| Panadapter.CoveredRows | src/panadapter.c:319-323 | an interval covers only rows from its floor to its ceiling, and every row strictly between whole |
| Panadapter.Extent | src/panadapter.c:263-272 | the extent is that of all columns' runs |
| Panadapter.Plot | src/panadapter.c:252-255 | every pixel has its plotted level and the height of that level |
| Panadapter.Band | src/panadapter.c:273-279 | a strip with rows and columns always has a band |
| Panadapter.BodyBand | src/panadapter.c:242-280 | there is a picture if and only if there are pixels, rows and at least two columns, and then heights and band are those of the trace |
| Panadapter.FillMask | src/panadapter.c:297-305 | every fill pixel of the band has its coverage |
| Panadapter.TraceMask | src/panadapter.c:311-323 | every trace pixel of the band has its coverage although only the touched rows are written |
| Panadapter.TraceColumn | src/panadapter.c:313-323 | one column's run, cut to the band, leaves every other column alone |
| Panadapter.SegmentIsBright | src/panadapter.c:324-326 | both columns of a segment are coloured at least as bright as its brighter end, and each by a level of its own or a neighbour |
| Panadapter.ColourStrip | src/panadapter.c:324-334 | every column has the lifted palette colour of its brightest neighbour |
| Panadapter.BodyMasks | src/panadapter.c:289-336 | both masks of the band and the colour strip are complete if the band is that of the same width and inside the strip, and otherwise nothing is written |
| Spots.ShortCallsStayUnique | src/gui.c:6234-6259 | announcing a call that fits the field never makes a second spot of it |
| Spots.LongCallsMayRepeat | src/gui.c:6240-6253 | announcing a longer call keeps the calls unique if and only if no other spot kept has the cut call already |
| Spots.StoredIs | src/gui.c:6234-6259 | an announcement without call or frequency is ignored, any other stored as it came, the call cut to 19 characters and the mode to 11 |
| Spots.DeletedIsUnique | src/gui.c:6260-6270 | deleting a call removes it and no other, and keeps calls unique |
| Spots.StoreIsTheMostRecent | src/gui.c:6234-6274 | whatever is announced at increasing times, deleted, cleared and pruned, every spot is the latest word on its call as stored, each call is there once, and a call neither removed nor expired is missing only if it was evicted from a full store of spots announced later |
| Spots.KeptAreTheLive | src/gui.c:1161-1170 | pruning keeps exactly the spots within the time to live and keeps calls unique |
| Spots.SpotStore.Add | src/gui.c:6234-6259 | an announcement refreshes its spot, takes a free place, or evicts the oldest, in place; without call or frequency it does nothing |
| Spots.SpotStore.OldestPlace | src/gui.c:6246-6249 | the place is that of a spot no later than any other |
| Spots.SpotStore.Delete | src/gui.c:6260-6270 | the last spot fills the gap |
| Spots.SpotStore.Clear | src/gui.c:6271-6274 | the store is empty |
| Spots.CloseUp | src/gui.c:1163-1170 | expired spots drop out in place and the others close up in order |
| Spots.SpotStore.Prune | src/gui.c:1161-1170 | the store after a prune is what was within the time to live, in order |
| SpotLabels.Layout | src/gui.c:1203-1235 | labels of one row never overlap, and a label is left out only where earlier labels block all three rows |
| SpotLabels.LabelKeepsClear | src/gui.c:1195-1232 | a label stands at its tick, 17 pixels a row, moved down just so far that it is clear of every readout it meets |
| SpotLabels.RadioLabelsNeverOverlap | src/gui.c:1195-1232 | with the radio's own readouts no two labels ever overlap, in whatever rows and however pushed |
| SpotLabels.OverlapExactly | src/gui.c:1213-1232 | in general two labels overlap if and only if they are side by side, one under the server's readout and one under the meter, the first one or two rows further down |
| SpotLabels.ServerLabelsMayOverlap | src/gui.c:1198-1223 | three spots in front of a server that do, laid out by a branch the program does not take |
| BandTable.PrintReadsBack | src/settings.c:501-503 | a value printed with one decimal, of either sign, reads back exactly |
| BandTable.LongestPrefix | src/settings.c:500-506 | a number of whole entries fits the buffer if and only if it is at most the number written |
| BandTable.Format | src/settings.c:496-507 | what is written is the entries that fit, separated, and never overruns the buffer |
| BandTable.Parse | src/settings.c:474-494 | every band gets the clamped value of the last entry with its key and a number, or the default |
| BandTable.Apply | src/settings.c:481-491 | one entry sets the first band of its key; without an equals sign, a number or a known key it changes nothing |
| BandTable.TableRoundTrip | src/settings.c:474-507 | reading what was written into any buffer gives every kept band its value, clamped, and every other band the default |

## Left out

- The generator's two rings are values (a buffer with head and tail) reassigned as a whole, not separately allocated arrays; running out of memory and freeing are not modelled.
- Doubles are reals, floats too: rounding is not modelled. The ramp position is a whole number, which it always is; the raised-cosine value made from it is left out, the ramp position stands for the output sample.
- Integer widths are modelled for the ring indices, serials, counters and header words only. Products of a gap and the dot length, frequencies, the sample clock and the index made from a palette position are unbounded.
- SpscRing.RingIsFaithful: loads, slot accesses and stores are atomic steps in one order, which is what the acquire and release operations give the two threads; weaker orders are not modelled.
- TciKeying.EveryRunIsSafe: promises a connected keyer for the TX audio only, because a mic-sourced `trx` key can lose its keyer; TciKeying.KeyIsAnsweredFor gives the exact condition.
- TciKeying.StepIsSafe: one command is one step, so a close between the parts of one command is not modelled; nor are TUNE and text keying at a disconnect, and stopping the server. The gate's answer of every TX slot is arbitrary; releasing the key on a lost radio link is a button event. The transmitter does not come or go while the server runs.
- That clients' view of the radio always catches up through the reporter is not claimed: a value that changes and returns between two looks is not sent again.
- libwebsockets, GTK, PipeWire, WDSP and file access. The resampler is any source of frames; the label a subscription starts with, the tap samples and, in a run, the positions of changes are inputs; draining of the message queues is not modelled. In-order queueing of blocks is.
- Binary frames received from clients, the TX chrono, sensors, and the commands other than those named above.
- TciIqRun.Serve: the pump's look at the ring and the client's turn are one step; a start between the two is TciIqRun.StartedLate. A run begins after the client's start.
- SampleClock.SampleClock.Push: ringing a push's frames and clocking it are one step.
- TciAudio.Spread: the conversion to 16 bits is without the overflow of samples beyond full scale.
- TciSplit.ProcessPayload: a command's arguments are read out where the C code passes pointers to them; the effect of executing one command on the buffer is none.
- GuiState.StepKeepsInv: the dB window, PA calibration, TX filter and other parts of the transmitter's configuration are left out, as are turning CTUN on and off, saving and redrawing. The band plan and the filter presets are constants of the run; passband edges are whole Hz.
- GuiLaws.StartedInvariant: takes the settings as already read and clamped; the one-time migration of old band modes is left out.
- Waterfall.Display.SetPalette: a palette is its table of 256 colours; interpolating it, and the selection shared with the panadapter, are left out. Scrolling by memmove is modelled as moving rows from the bottom up.
- Panadapter.ColourStrip: the palette is any function from a level to a colour; rounding to single precision in the masks is not modelled.
- SpotLabels.Layout: takes the spots in view as pixel columns, in the order of their frequencies, with their text widths and the extents of the readouts as inputs; the sort and the tick geometry are left out.
- Spots.StoreIsTheMostRecent: the sort by frequency after a prune is left out; the statement does not depend on the order of spots.
- BandTable.Parse: numbers are blanks, a sign, digits and a fraction; exponents, hexadecimal and the names of infinity and not-a-number are left out.
- BandTable.Apply: reads the same numbers.
- BandTable.Format: values to be printed are counted in tenths, so there is no negative zero and no rounding of a double to one decimal.
- GuiHandlers.Gui.PushCfg: of the transmitter's configuration only drive, tune power and mode, which the handlers modelled here move.
