/** The squelch loop of `run()`. The variables `run()` keeps from one iteration to the
    next (the two calloc'ed buffers, the `data` pointer that swaps between them,
    `triggered`, `position`, `event_count`, `avg`) are the fields of a `Squelcher`;
    what `fwrite` and the verbose `fprintf` calls produce is appended to `out` and `log`. */
module Squelch {
  import opened Classify
  import opened Events

  /** `fread` of one chunk into the front of `data` (the tail keeps its old bytes),
      followed by the inner loop over the pairs just read. */
  method ReadBlock(data: array<Byte>, chunk: seq<Byte>, threshold: Byte) returns (count: nat, acc: nat)
    requires |chunk| <= data.Length && |chunk| % 2 == 0
    modifies data
    ensures data[..] == chunk + old(data[..])[|chunk|..]
    ensures count == OverCount(chunk, |chunk| / 2, threshold)
    ensures acc == MagnitudeSum(chunk, |chunk| / 2)
  {
    for j := 0 to |chunk|
      invariant data[..j] == chunk[..j]
      invariant data[j..] == old(data[..])[j..]
    {
      data[j] := chunk[j];
    }
    assert data[..] == chunk + data[|chunk|..];
    ClassifyReadsPrefixOnly(chunk, data[|chunk|..], |chunk| / 2, threshold);
    count, acc := CountBlock(data, |chunk| / 2, threshold);
  }

  class Squelcher {
    const cfg: Config
    const dataA: array<Byte>
    const dataB: array<Byte>
    const blockThreshold: nat
    var data: array<Byte>
    var triggered: bool
    var position: nat
    var eventCount: nat
    var avg: nat
    var out: seq<seq<Byte>>
    var log: seq<Diag>

    ghost predicate Valid()
      reads this, dataA, dataB
    {
      && cfg.Valid()
      && dataA != dataB && (data == dataA || data == dataB)
      && blockThreshold == BlockThreshold(cfg.blockSize, cfg.blockThreshold)
      && WellFormed(cfg, State())
    }

    /** The buffer `data` does not point at: the one the last read went into. */
    function Other(): array<Byte>
      reads this
    {
      if data == dataA then dataB else dataA
    }

    /** The abstract state the transducer `Events.Step` works on. */
    ghost function State(): RunState
      reads this, dataA, dataB
      requires data == dataA || data == dataB
    {
      RunState(data[..], Other()[..], triggered, position, eventCount, avg, out, log)
    }

    /** Lines 82-92: two zeroed buffers, `data` at the first, the counters cleared,
        the block threshold fixed from the block size, `position` at the offset. */
    constructor (cfg: Config)
      requires cfg.Valid()
      ensures Valid() && fresh(dataA) && fresh(dataB)
      ensures this.cfg == cfg && State() == Initial(cfg)
    {
      this.cfg := cfg;
      dataA := new Byte[2 * cfg.blockSize](_ => 0);
      dataB := new Byte[2 * cfg.blockSize](_ => 0);
      blockThreshold := BlockThreshold(cfg.blockSize, cfg.blockThreshold);
      new;
      data := dataA;
      avg, eventCount := 0, 0;
      position := cfg.offset;
      triggered := false;
      out, log := [], [];
    }

    /** One iteration of the loop, lines 98-156: read into `data`, count, respond. */
    method Feed(chunk: seq<Byte>)
      requires Valid() && IsRead(cfg.blockSize, chunk)
      modifies this, dataA, dataB
      ensures Valid() && State() == Step(cfg, old(State()), chunk)
    {
      ghost var s := State();
      var count, acc := ReadBlock(data, chunk, cfg.sampleThreshold);
      assert State() == s.(fill := chunk + s.fill[|chunk|..]);
      Respond(count > blockThreshold, acc, |chunk| / 2);
    }

    /** Lines 112-156: the emission and diagnostics for a block already classified,
        the noise average, the position, and the buffer swap. */
    method Respond(signal: bool, acc: nat, n: nat)
      requires Valid() && acc <= 255 * n && 0 < n <= cfg.blockSize
      modifies this
      ensures Valid() && State() == Events.Respond(cfg, old(State()), signal, acc, n)
    {
      ghost var t := Events.Respond(cfg, State(), signal, acc, n);
      var other := Other();
      var triggered, eventCount, avg, out, log := this.triggered, this.eventCount, this.avg, this.out, this.log;
      if signal {
        if cfg.verbose && !triggered {
          log := log + [EventStart(position)];
          eventCount := eventCount + 1;
        }
        if cfg.padding && !triggered {
          out := out + [other[..]];
        }
        out := out + [data[..]];
        triggered := true;
      } else {
        if cfg.verbose && triggered {
          log := log + [EventEnd(position)];
        }
        if triggered && cfg.padding {
          out := out + [data[..]];
        }
        if cfg.autoMode {
          avg := NoiseAverage(avg, acc, n, cfg.blockSize);
        }
        triggered := false;
      }
      assert out == t.out && log == t.log && eventCount == t.eventCount && avg == t.avg;
      this.triggered, this.eventCount, this.avg, this.out, this.log := triggered, eventCount, avg, out, log;
      position := position + 2 * n;
      data := other;
    }
  }

  /** Runs the squelch over the successive reads `chunks` and returns the blocks
      written, the verbose diagnostics, and the final counters: exactly what the
      transducer `Process` computes. */
  method Run(cfg: Config, chunks: seq<seq<Byte>>)
    returns (out: seq<seq<Byte>>, log: seq<Diag>, eventCount: nat, avg: nat, position: nat, triggered: bool)
    requires cfg.Valid() && ValidReads(cfg.blockSize, chunks)
    ensures out == Process(cfg, chunks).out && log == Process(cfg, chunks).log
    ensures eventCount == Process(cfg, chunks).eventCount && avg == Process(cfg, chunks).avg
    ensures position == Process(cfg, chunks).position && triggered == Process(cfg, chunks).triggered
  {
    var squelcher := new Squelcher(cfg);
    assert chunks[..0] == [];
    var k := 0;
    while k < |chunks|
      invariant 0 <= k <= |chunks|
      invariant squelcher.Valid() && squelcher.cfg == cfg
      invariant fresh(squelcher.dataA) && fresh(squelcher.dataB)
      invariant squelcher.State() == Process(cfg, chunks[..k])
    {
      ProcessExtend(cfg, chunks, k);
      squelcher.Feed(chunks[k]);
      k := k + 1;
    }
    assert chunks[..k] == chunks;
    out, log := squelcher.out, squelcher.log;
    eventCount, avg := squelcher.eventCount, squelcher.avg;
    position, triggered := squelcher.position, squelcher.triggered;
  }
}
