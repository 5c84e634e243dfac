/** The squelch run as a deterministic transducer: a sequence of chunks goes in, a
    sequence of emitted blocks and event diagnostics comes out. This is the
    specification the imperative loop in module Squelch is proved against. */
module Events {
  import opened Classify

  /** The options `run()` consults. `blockThreshold` is the trigger percentage as the
      8-bit value the option parser stores; `offset` is the starting byte offset. */
  datatype Config = Config(
    autoMode: bool,
    blockSize: nat,
    sampleThreshold: Byte,
    blockThreshold: Byte,
    offset: nat,
    padding: bool,
    verbose: bool)
  {
    /** The 32-bit products `block_size * block_threshold` and the accumulator fit. */
    predicate Valid()
    {
      blockSize <= MaxBlockSize
    }
  }

  /** One successful `fread`: between 1 and `block_size` complete pairs. */
  predicate IsRead(blockSize: nat, chunk: seq<Byte>)
  {
    |chunk| % 2 == 0 && 2 <= |chunk| <= 2 * blockSize
  }

  predicate ValidReads(blockSize: nat, chunks: seq<seq<Byte>>)
  {
    forall k :: 0 <= k < |chunks| ==> IsRead(blockSize, chunks[k])
  }

  /** Reads can be split and joined anywhere. */
  lemma ValidReadsAppend(blockSize: nat, front: seq<seq<Byte>>, back: seq<seq<Byte>>)
    ensures ValidReads(blockSize, front + back) <==> ValidReads(blockSize, front) && ValidReads(blockSize, back)
  {
    if ValidReads(blockSize, front + back) {
      assert forall k :: 0 <= k < |front| ==> front[k] == (front + back)[k];
      assert forall k :: 0 <= k < |back| ==> back[k] == (front + back)[|front| + k];
    }
  }

  /** What one block causes to be written. */
  datatype Emission =
    | PrePadThenBlock   // the previous buffer, then the current one
    | BlockOnly         // the current buffer
    | TrailingPad       // the current (noise) buffer, closing an event
    | Nothing

  /** The per-block decision, a Mealy output of the previous `triggered` state and
      whether this block is signal. */
  function Decide(signal: bool, triggered: bool, padding: bool): (e: Emission)
    ensures e == PrePadThenBlock <==> signal && !triggered && padding
    ensures e == BlockOnly <==> signal && (triggered || !padding)
    ensures e == TrailingPad <==> !signal && triggered && padding
    ensures e == Nothing <==> !signal && (!triggered || !padding)
  {
    if signal then
      if padding && !triggered then PrePadThenBlock else BlockOnly
    else if triggered && padding then TrailingPad
    else Nothing
  }

  /** The blocks written for emission `e`, given the previous and the current buffer. */
  function Written(e: Emission, previous: seq<Byte>, current: seq<Byte>): (blocks: seq<seq<Byte>>)
    ensures |blocks| == (match e case PrePadThenBlock => 2 case Nothing => 0 case _ => 1)
    ensures blocks != [] ==> blocks[|blocks| - 1] == current
    ensures e == PrePadThenBlock ==> blocks[0] == previous
  {
    match e
    case PrePadThenBlock => [previous, current]
    case BlockOnly => [current]
    case TrailingPad => [current]
    case Nothing => []
  }

  /** Diagnostics reported in verbose mode: byte position of an event's first signal
      block, and of the first noise block after it. */
  datatype Diag = EventStart(position: nat) | EventEnd(position: nat)

  /** The run's state between two chunks. `fill` is the buffer the next read goes into
      and `prev` the buffer the last read went into (the pre-pad candidate). */
  datatype RunState = RunState(
    fill: seq<Byte>,
    prev: seq<Byte>,
    triggered: bool,
    position: nat,
    eventCount: nat,
    avg: nat,
    out: seq<seq<Byte>>,
    log: seq<Diag>)

  predicate WellFormed(cfg: Config, s: RunState)
  {
    && |s.fill| == 2 * cfg.blockSize
    && |s.prev| == 2 * cfg.blockSize
    && s.avg <= 255
  }

  /** `block_size` pairs of zero bytes: a freshly `calloc`ed buffer. */
  function Zeros(length: nat): (z: seq<Byte>)
    ensures |z| == length && forall j :: 0 <= j < length ==> z[j] == 0
  {
    seq(length, _ => 0)
  }

  /** The state before the first read. */
  function Initial(cfg: Config): (s: RunState)
    ensures WellFormed(cfg, s)
    ensures !s.triggered && s.out == [] && s.log == [] && s.eventCount == 0 && s.avg == 0
    ensures s.fill == s.prev == Zeros(2 * cfg.blockSize) && s.position == cfg.offset
  {
    RunState(Zeros(2 * cfg.blockSize), Zeros(2 * cfg.blockSize), false, cfg.offset, 0, 0, [], [])
  }

  /** Classification of a read on its own: the pairs just read decide it. */
  predicate ReadIsSignal(cfg: Config, chunk: seq<Byte>): (b: bool)
    requires |chunk| % 2 == 0
    ensures b ==> BlockThreshold(cfg.blockSize, cfg.blockThreshold) < |chunk| / 2
  {
    IsSignal(OverCount(chunk, |chunk| / 2, cfg.sampleThreshold), cfg.blockSize, cfg.blockThreshold)
  }

  /** The auto-mode noise estimate: the previous average and this block's mean
      magnitude (over the whole block size) weighted equally. It stays within 8 bits. */
  function NoiseAverage(avg: nat, acc: nat, n: nat, blockSize: nat): (r: nat)
    requires avg <= 255 && acc <= 255 * n && 0 < n <= blockSize
    ensures r <= 255
    ensures avg <= acc / blockSize ==> avg <= r <= acc / blockSize
    ensures acc / blockSize <= avg ==> acc / blockSize <= r <= avg
  {
    assert 255 * n <= 255 * blockSize;
    MeanFitsInByte(acc, blockSize);
    (avg + acc / blockSize) / 2
  }

  lemma MeanFitsInByte(acc: nat, blockSize: nat)
    requires 0 < blockSize && acc <= 255 * blockSize
    ensures acc / blockSize <= 255
  {
  }

  /** The verbose diagnostic for one block: an event start on a rising edge (a signal
      block while not triggered), an event end on a falling edge, nothing otherwise. */
  function Edge(verbose: bool, signal: bool, triggered: bool, position: nat): seq<Diag>
  {
    if verbose && signal && !triggered then [EventStart(position)]
    else if verbose && !signal && triggered then [EventEnd(position)]
    else []
  }

  /** Lines 112-156, once the block in `fill` has been classified: emit, report the event
      edges, fold a noise block into the average, advance the position by the `2n` bytes
      read, and swap the buffers. */
  function Respond(cfg: Config, s: RunState, signal: bool, acc: nat, n: nat): (t: RunState)
    requires WellFormed(cfg, s) && acc <= 255 * n && 0 < n <= cfg.blockSize
    ensures WellFormed(cfg, t)
  {
    var log := s.log + Edge(cfg.verbose, signal, s.triggered, s.position);
    var eventCount := if cfg.verbose && signal && !s.triggered then s.eventCount + 1 else s.eventCount;
    var avg := if !signal && cfg.autoMode then NoiseAverage(s.avg, acc, n, cfg.blockSize) else s.avg;
    RunState(
      s.prev, s.fill, signal, s.position + 2 * n, eventCount, avg,
      s.out + Written(Decide(signal, s.triggered, cfg.padding), s.prev, s.fill), log)
  }

  /** One iteration of the loop: read `chunk` over the front of `fill` (the tail keeps
      the bytes of an older read), classify the pairs just read, and respond. */
  function Step(cfg: Config, s: RunState, chunk: seq<Byte>): (t: RunState)
    requires cfg.Valid() && WellFormed(cfg, s) && IsRead(cfg.blockSize, chunk)
    ensures WellFormed(cfg, t)
  {
    var n := |chunk| / 2;
    Respond(cfg, s.(fill := chunk + s.fill[|chunk|..]), ReadIsSignal(cfg, chunk), MagnitudeSum(chunk, n), n)
  }

  /** The state after the whole sequence of chunks. */
  function Process(cfg: Config, chunks: seq<seq<Byte>>): (s: RunState)
    requires cfg.Valid() && ValidReads(cfg.blockSize, chunks)
    ensures WellFormed(cfg, s)
    decreases |chunks|
  {
    if chunks == [] then Initial(cfg)
    else Step(cfg, Process(cfg, chunks[..|chunks| - 1]), chunks[|chunks| - 1])
  }

  /** Before the first read the run is in its initial state. */
  lemma ProcessNothing(cfg: Config)
    requires cfg.Valid()
    ensures Process(cfg, []) == Initial(cfg)
  {
  }

  /** Processing one more read is one more step. */
  lemma ProcessExtend(cfg: Config, chunks: seq<seq<Byte>>, k: nat)
    requires cfg.Valid() && ValidReads(cfg.blockSize, chunks) && k < |chunks|
    ensures IsRead(cfg.blockSize, chunks[k])
    ensures Process(cfg, chunks[..k + 1]) == Step(cfg, Process(cfg, chunks[..k]), chunks[k])
  {
    assert chunks[..k + 1][..k] == chunks[..k];
  }
}
