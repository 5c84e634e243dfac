# iq-squelch: a verified model of the squelch loop

`iq-squelch` reads a file of unsigned 8-bit IQ pairs block by block and writes
only the blocks that carry a signal. Optionally it also writes one block of
padding before and after each event. This project models its `run()` loop
(`iq-squelch.c`, lines 72-166) in Dafny and proves what the loop does.

The model has four modules:

- `Classify` (`classify.dfy`) handles one block.
  - The 8-bit magnitude approximation, measured from the midpoint 127.
  - The count of pairs above the sample threshold, and the sum of their magnitudes.
  - `CountBlock`, the inner counting loop over the buffer array.
  - The block threshold `block_size * pct / 100` and the strict comparison against it.
- `Events` (`events.dfy`) describes the run as a transducer over values.
  - A `RunState` holds the two buffers, `triggered`, `position`, the event counter, the noise average, the blocks written and the verbose diagnostics.
  - `Step` is one iteration of the loop and `Process` a whole run.
- `Squelch` (`squelch.dfy`) is the imperative loop itself.
  - A `Squelcher` object owns two arrays, and its `data` field swaps between them on every read.
  - It reads each chunk into `data` in place, so the tail keeps stale bytes.
  - It counts with `CountBlock` and follows the source's nested branches.
  - Each `Feed` is proved to perform exactly one `Step`, and `Run` is proved to compute `Process`.
- `Properties` (`properties.dfy`) gives reference definitions that do not carry the loop's state.
  - `Filled` says which bytes each buffer holds after each read.
  - `Emitted` lists the blocks written, read by read.
  - `Diagnostics` lists the events reported.
  - Lemmas prove that `Process` agrees with these definitions, and then prove the behaviour the tool promises from them.

How the environment is represented:

- The input file becomes the sequence of successful `fread` results. Each one is a chunk of 1 to `block_size` complete pairs.
- Each `fwrite` of a whole buffer becomes one element of `out`.
- The two verbose `fprintf` reports inside the loop become `EventStart(position)` and `EventEnd(position)` entries of `log`.

The model reproduces these quirks of the code:

- The zero level is 127 (`INT8_MAX`, lines 103-104), not the mid-scale value 128 of unsigned IQ data. A block of (128,128) pairs therefore has magnitude 2 everywhere and can trigger (`MidScaleBlockCanTrigger`).
- The block threshold is computed once from `block_size` (line 90). It is never scaled to the number of pairs actually read, so a short read is compared against the full-block threshold (`ShortReadIsNoise`).
- The end of an event is reported only in verbose mode (lines 132-136). Only the rising edge increments `event_count` (lines 113-117).
- The usage text (line 63) presents `-p` as an option that turns padding on. Padding already defaults to on (line 32), and `-p` can only set it on (line 206), so from the command line padding is always on. Padding is a parameter of the model.
- The usage text (line 58) says `-a` puts the threshold above the average noise level. In the code the average is computed (lines 147-150) but never read by the decision at line 112. `AutoModeIsAdvisory` proves that `-a` changes nothing except `avg`.

## Model

| member | source | states |
|---|---|---|
| Classify.Magnitude | iq-squelch.c:103-104 | The magnitude is \|I-127\|+\|Q-127\| for every pair except (255,255), which wraps to 0 in 8 bits |
| Classify.MagnitudeZeroIff | iq-squelch.c:103-104 | Magnitude 0 occurs exactly at (127,127) and at the wrapping corner (255,255) |
| Classify.MagnitudeExamples | iq-squelch.c:103-104 | (127,127)→0, (128,128)→2, (0,0)→254, (255,255)→0, (200,200)→146 |
| Classify.OverCount | iq-squelch.c:99-107 | The number of pairs counted is at most the number of pairs read |
| Classify.NoneCountedIff | iq-squelch.c:105-107 | The count is 0 exactly when every pair's magnitude is at or below the sample threshold |
| Classify.OverCountIsCardinality | iq-squelch.c:105-107 | The count equals the size of the set of pair indices whose magnitude is strictly above the threshold |
| Classify.BlockThreshold | iq-squelch.c:90 | The block threshold is pct percent of the block size rounded down, never more than the block size when pct ≤ 100 |
| Classify.IsSignal | iq-squelch.c:112 | A block is signal exactly when its count is strictly more than pct percent of the block size |
| Classify.MagnitudeSum | iq-squelch.c:99-108 | The accumulator is at most 255 per pair read |
| Classify.CountBlock | iq-squelch.c:99-109 | The loop over the first n pairs of the buffer returns exactly the count above the threshold and the magnitude sum |
| Classify.ClassifyAgrees | iq-squelch.c:101-109 | Two buffers that agree on their first 2n bytes have the same count and sum |
| Classify.ClassifyReadsPrefixOnly | iq-squelch.c:98-109 | Stale bytes after the pairs just read do not affect the count or the sum |
| Classify.ShortReadIsNoise | iq-squelch.c:90-112 | A read of at most block_size*pct/100 pairs is never signal, because the threshold is not scaled to n |
| Classify.MidpointBlockIsNoise | iq-squelch.c:103-112 | A block of (127,127) pairs has count 0 and sum 0 and is noise whatever the thresholds |
| Classify.MidScaleBlockCanTrigger | iq-squelch.c:103-112 | A full block of (128,128) pairs counts every pair when the sample threshold is below 2, whatever the percentage, and is then signal when pct < 100 |
| Classify.TieBreakExample | iq-squelch.c:112 | With block size 4, threshold 10 and 50%: a count of 2, equal to the block threshold, is noise; a count of 3 is signal |
| Events.Decide | iq-squelch.c:112-153 | Signal while not triggered with padding gives pre-pad then block; other signal gives the block only; noise while triggered with padding gives a trailing pad; anything else writes nothing (each case in both directions) |
| Events.Written | iq-squelch.c:121-143 | Two, one or no whole buffers are written; the last one written is the current buffer and a pre-pad is the previous buffer |
| Events.Zeros | iq-squelch.c:82-83 | A freshly allocated buffer has the requested length and holds only zero bytes |
| Events.ReadIsSignal | iq-squelch.c:98-112 | A read can be signal only if it holds more pairs than the block threshold |
| Events.Initial | iq-squelch.c:82-92 | Both buffers are zero, nothing is written or reported, the counters are 0, not triggered, and the position is the offset |
| Events.NoiseAverage | iq-squelch.c:147-150 | The new average lies between the old average and the block's mean acc/block_size, and stays within 8 bits |
| Events.Respond | iq-squelch.c:112-156 | Responding to a classified block keeps both buffers 2*block_size bytes and the average within 8 bits |
| Events.Step | iq-squelch.c:98-156 | One iteration keeps both buffers 2*block_size bytes and the average within 8 bits |
| Events.Process | iq-squelch.c:98-157 | A whole run keeps both buffers 2*block_size bytes and the average within 8 bits |
| Squelch.ReadBlock | iq-squelch.c:98-109 | After the read, the array holds the chunk followed by its old tail, and the count and sum are those of the chunk alone |
| Squelch.Squelcher.constructor | iq-squelch.c:82-92 | Two distinct fresh zeroed buffers; the state is the initial state of the run |
| Squelch.Squelcher.Feed | iq-squelch.c:98-156 | One loop iteration on the arrays changes the abstract state exactly as one Step does |
| Squelch.Squelcher.Respond | iq-squelch.c:112-156 | The branches of the loop body write, report, average, advance the position and swap the buffers exactly as Respond does |
| Squelch.Run | iq-squelch.c:72-166 | The blocks written, the reports, event_count, avg, position and triggered at the end are those of Process |
| Properties.Filled | iq-squelch.c:98-156 | A buffer is 2*block_size bytes and begins with the last read |
| Properties.ProcessTriggered | iq-squelch.c:112-155 | After each read, triggered is whether that read was signal, and position is the offset plus every byte read |
| Properties.ProcessBuffers | iq-squelch.c:82-156 | The pre-pad buffer holds the bytes of the read just before (zeros at first), and the fill buffer those of the read before that |
| Properties.ProcessOut | iq-squelch.c:112-153 | The blocks written are exactly the reference emissions, each decided by whether this read and the previous one were signal |
| Properties.ProcessLog | iq-squelch.c:113-136 | The reports are exactly the reference diagnostics: a start at the first signal block's position and an end at the first noise block after it |
| Properties.EventCountIsStarts | iq-squelch.c:113-117 | event_count equals the number of event starts reported |
| Properties.StartsAppend | iq-squelch.c:116 | Counting event starts distributes over concatenation |
| Properties.WrittenBlocksAreFull | iq-squelch.c:123-141 | Every block written is exactly 2*block_size bytes, even after a short read |
| Properties.EmittedAreFull | iq-squelch.c:123-141 | Every reference emission is 2*block_size bytes |
| Properties.QuietUnlessVerbose | iq-squelch.c:113-136 | Outside verbose mode nothing is reported and event_count stays 0 |
| Properties.NoDiagnostics | iq-squelch.c:113-136 | The reference diagnostics are empty outside verbose mode |
| Properties.DiagnosticsAlternate | iq-squelch.c:113-136 | Reports alternate start, end, start, …, and an event is open exactly while the last read was signal |
| Properties.DiagnosticsOrdered | iq-squelch.c:115-155 | Reported positions strictly increase and lie between the offset and the end of what has been read |
| Properties.AverageOnlyInAutoMode | iq-squelch.c:147-150 | Without auto mode the average stays 0 |
| Properties.SignalKeepsAverage | iq-squelch.c:112-150 | A signal read leaves the noise average unchanged: it is updated only in the noise branch |
| Properties.AutoModeIsAdvisory | iq-squelch.c:112-150 | Turning auto mode on or off changes nothing in the run except avg |
| Properties.OffsetOnlyShiftsPositions | iq-squelch.c:91 | The offset changes only the positions: the buffers, the blocks written and the counters are the same, the final position moves by the change of offset, and every report keeps its kind and moves by the same amount |
| Properties.QuietStaysQuiet | iq-squelch.c:131-153 | Once not triggered, further noise reads write nothing |
| Properties.IsolatedSignal | iq-squelch.c:112-153 | One signal read between noise writes exactly three blocks with padding (previous, current, next) and one block without |
| Properties.SignalNoiseSignal | iq-squelch.c:121-143 | Signal, noise, signal with padding writes the middle noise block twice: once as trailing pad and once as pre-pad |
| Properties.FirstPrePadIsZeros | iq-squelch.c:82-129 | A signal first read is pre-padded by the zeroed buffer, and its own block is the read followed by zeros |

## Left out

- `main()`, option parsing, the usage text, and opening and closing files (lines 168-268). The model takes the parsed options as a `Config`.
- File I/O mechanics: the seek to the offset (lines 94-96), read errors, and a partial pair at end of file. The input is the sequence of successful reads, each of 1 to `block_size` complete pairs.
- The text of the verbose messages (lines 115, 134, 159-161). Only the positions they report and the event count are modelled.
- Allocation failure of the two buffers. They are assumed to be allocated and zeroed.
- 32-bit overflow of `block_size * block_threshold` and of `acc` (lines 90 and 108). `Config.Valid` bounds `block_size` so that neither can overflow, and the wrap itself is not modelled.
- Events.Process: `position` is an unbounded natural. The 64-bit wrap of `position` (line 155) is not modelled.
- Events.Process: `eventCount` is an unbounded natural. The 32-bit wrap of `event_count` (lines 75 and 116) after 2^32 events is not modelled.
- `block_count` is parsed but never read by `run()`, so it is not part of the model.
- Multi-channel de-interleaving, sentinel substitution for dropped blocks, and streaming transports do not exist in this program, so they are not part of this model.
- Events.Edge: the verbose report for one block is a helper without a contract of its own. What it produces is stated by `ProcessLog` and `DiagnosticsAlternate`.
