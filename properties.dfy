/** What the squelch run promises, stated against reference definitions that do not
    carry the loop's state: which bytes each buffer holds, which blocks are written,
    and which diagnostics are reported, each as a function of the reads alone. */
module Properties {
  import opened Classify
  import opened Events

  /** Number of bytes in all the reads. */
  function Total(chunks: seq<seq<Byte>>): nat
  {
    if chunks == [] then 0 else Total(chunks[..|chunks| - 1]) + |chunks[|chunks| - 1]|
  }

  /** Whether the last of the reads was a signal block; false before the first read. */
  predicate LastIsSignal(cfg: Config, chunks: seq<seq<Byte>>)
    requires ValidReads(cfg.blockSize, chunks)
  {
    chunks != [] && ReadIsSignal(cfg, chunks[|chunks| - 1])
  }

  /** The bytes of the buffer the last read went into, right after that read: the read
      itself, then the tail of what the same buffer held two reads earlier (zeros if it
      never held a read). Before the first read: the zeroed buffer. */
  function Filled(blockSize: nat, chunks: seq<seq<Byte>>): (b: seq<Byte>)
    requires ValidReads(blockSize, chunks)
    ensures |b| == 2 * blockSize
    ensures chunks != [] ==> b[..|chunks[|chunks| - 1]|] == chunks[|chunks| - 1]
  {
    if chunks == [] then Zeros(2 * blockSize)
    else
      var last := chunks[|chunks| - 1];
      var older := if |chunks| < 2 then Zeros(2 * blockSize) else Filled(blockSize, chunks[..|chunks| - 2]);
      last + older[|last|..]
  }

  /** The blocks written, block by block: each read's emission is decided by whether it
      and the read before it were signal, and writes the buffers of those two reads. */
  function Emitted(cfg: Config, chunks: seq<seq<Byte>>): seq<seq<Byte>>
    requires ValidReads(cfg.blockSize, chunks)
  {
    if chunks == [] then []
    else
      var before := chunks[..|chunks| - 1];
      Emitted(cfg, before)
        + Written(Decide(LastIsSignal(cfg, chunks), LastIsSignal(cfg, before), cfg.padding),
                  Filled(cfg.blockSize, before), Filled(cfg.blockSize, chunks))
  }

  /** The diagnostics reported, read by read: in verbose mode, the start of an event at
      the byte position of its first signal block and its end at the position of the
      first noise block after it. */
  function Diagnostics(cfg: Config, chunks: seq<seq<Byte>>): seq<Diag>
    requires ValidReads(cfg.blockSize, chunks)
  {
    if chunks == [] then []
    else
      var before := chunks[..|chunks| - 1];
      var at := cfg.offset + Total(before);
      Diagnostics(cfg, before) + Edge(cfg.verbose, LastIsSignal(cfg, chunks), LastIsSignal(cfg, before), at)
  }

  /** Number of event starts in a diagnostics log. */
  function Starts(log: seq<Diag>): nat
  {
    if log == [] then 0
    else Starts(log[..|log| - 1]) + if log[|log| - 1].EventStart? then 1 else 0
  }

  /** Starts and ends alternate, beginning with a start. */
  predicate Alternating(log: seq<Diag>)
  {
    forall i :: 0 <= i < |log| ==> (log[i].EventStart? <==> i % 2 == 0)
  }

  /** After each read, `triggered` says whether that read was signal, and `position` has
      advanced from the offset over every byte read. */
  lemma {:induction false} ProcessTriggered(cfg: Config, chunks: seq<seq<Byte>>)
    requires cfg.Valid() && ValidReads(cfg.blockSize, chunks)
    ensures Process(cfg, chunks).triggered == LastIsSignal(cfg, chunks)
    ensures Process(cfg, chunks).position == cfg.offset + Total(chunks)
  {
    if chunks != [] {
      ProcessTriggered(cfg, chunks[..|chunks| - 1]);
    }
  }

  /** The buffers swap on every read: `prev` holds the bytes of the last read (zeros
      before the first) and `fill` the buffer of the read before it. */
  lemma {:induction false} ProcessBuffers(cfg: Config, chunks: seq<seq<Byte>>)
    requires cfg.Valid() && ValidReads(cfg.blockSize, chunks)
    ensures Process(cfg, chunks).prev == Filled(cfg.blockSize, chunks)
    ensures chunks == [] ==> Process(cfg, chunks).fill == Zeros(2 * cfg.blockSize)
    ensures chunks != [] ==> Process(cfg, chunks).fill == Filled(cfg.blockSize, chunks[..|chunks| - 1])
  {
    if chunks != [] {
      var before := chunks[..|chunks| - 1];
      ProcessBuffers(cfg, before);
      if |chunks| >= 2 {
        assert before[..|before| - 1] == chunks[..|chunks| - 2];
      }
    }
  }

  /** The blocks the loop writes are exactly the reference emissions. */
  lemma {:induction false} ProcessOut(cfg: Config, chunks: seq<seq<Byte>>)
    requires cfg.Valid() && ValidReads(cfg.blockSize, chunks)
    ensures Process(cfg, chunks).out == Emitted(cfg, chunks)
  {
    if chunks != [] {
      var before := chunks[..|chunks| - 1];
      ProcessOut(cfg, before);
      ProcessTriggered(cfg, before);
      ProcessBuffers(cfg, before);
      ProcessBuffers(cfg, chunks);
    }
  }

  /** The diagnostics the loop reports are exactly the reference diagnostics. */
  lemma {:induction false} ProcessLog(cfg: Config, chunks: seq<seq<Byte>>)
    requires cfg.Valid() && ValidReads(cfg.blockSize, chunks)
    ensures Process(cfg, chunks).log == Diagnostics(cfg, chunks)
  {
    if chunks != [] {
      var before := chunks[..|chunks| - 1];
      ProcessLog(cfg, before);
      ProcessTriggered(cfg, before);
    }
  }

  /** The event counter is the number of event starts reported. */
  lemma {:induction false} EventCountIsStarts(cfg: Config, chunks: seq<seq<Byte>>)
    requires cfg.Valid() && ValidReads(cfg.blockSize, chunks)
    ensures Process(cfg, chunks).eventCount == Starts(Process(cfg, chunks).log)
  {
    if chunks != [] {
      var before := chunks[..|chunks| - 1];
      EventCountIsStarts(cfg, before);
      var s := Process(cfg, before);
      var e := Edge(cfg.verbose, ReadIsSignal(cfg, chunks[|chunks| - 1]), s.triggered, s.position);
      StartsAppend(s.log, e);
    }
  }

  lemma {:induction false} StartsAppend(log: seq<Diag>, more: seq<Diag>)
    ensures Starts(log + more) == Starts(log) + Starts(more)
  {
    if more != [] {
      StartsAppend(log, more[..|more| - 1]);
      assert (log + more)[..|log + more| - 1] == log + more[..|more| - 1];
    } else {
      assert log + more == log;
    }
  }

  /** Every block written is a whole buffer: `2 * block_size` bytes, however short the
      read that filled it. */
  lemma {:induction false} WrittenBlocksAreFull(cfg: Config, chunks: seq<seq<Byte>>)
    requires cfg.Valid() && ValidReads(cfg.blockSize, chunks)
    ensures forall i :: 0 <= i < |Process(cfg, chunks).out| ==> |Process(cfg, chunks).out[i]| == 2 * cfg.blockSize
  {
    ProcessOut(cfg, chunks);
    EmittedAreFull(cfg, chunks);
  }

  lemma {:induction false} EmittedAreFull(cfg: Config, chunks: seq<seq<Byte>>)
    requires ValidReads(cfg.blockSize, chunks)
    ensures forall i :: 0 <= i < |Emitted(cfg, chunks)| ==> |Emitted(cfg, chunks)[i]| == 2 * cfg.blockSize
  {
    if chunks != [] {
      EmittedAreFull(cfg, chunks[..|chunks| - 1]);
    }
  }

  /** Outside verbose mode nothing is reported and no event is counted. */
  lemma {:induction false} QuietUnlessVerbose(cfg: Config, chunks: seq<seq<Byte>>)
    requires cfg.Valid() && ValidReads(cfg.blockSize, chunks) && !cfg.verbose
    ensures Process(cfg, chunks).log == [] && Process(cfg, chunks).eventCount == 0
  {
    ProcessLog(cfg, chunks);
    EventCountIsStarts(cfg, chunks);
    NoDiagnostics(cfg, chunks);
  }

  lemma {:induction false} NoDiagnostics(cfg: Config, chunks: seq<seq<Byte>>)
    requires ValidReads(cfg.blockSize, chunks) && !cfg.verbose
    ensures Diagnostics(cfg, chunks) == []
  {
    if chunks != [] {
      NoDiagnostics(cfg, chunks[..|chunks| - 1]);
    }
  }

  /** In verbose mode the reports alternate start, end, start, ..., and an event is open
      (the log has odd length) exactly while the last read was signal. */
  lemma {:induction false} DiagnosticsAlternate(cfg: Config, chunks: seq<seq<Byte>>)
    requires ValidReads(cfg.blockSize, chunks)
    ensures Alternating(Diagnostics(cfg, chunks))
    ensures cfg.verbose ==> (|Diagnostics(cfg, chunks)| % 2 == 1 <==> LastIsSignal(cfg, chunks))
  {
    if chunks != [] {
      var before := chunks[..|chunks| - 1];
      DiagnosticsAlternate(cfg, before);
      if !cfg.verbose {
        NoDiagnostics(cfg, chunks);
      }
    }
  }

  /** Reported positions are strictly increasing and lie before the end of what has been
      read: each report names the start of a different read. */
  lemma {:induction false} DiagnosticsOrdered(cfg: Config, chunks: seq<seq<Byte>>)
    requires ValidReads(cfg.blockSize, chunks)
    ensures forall i, j :: 0 <= i < j < |Diagnostics(cfg, chunks)| ==>
      Diagnostics(cfg, chunks)[i].position < Diagnostics(cfg, chunks)[j].position
    ensures forall i :: 0 <= i < |Diagnostics(cfg, chunks)| ==>
      cfg.offset <= Diagnostics(cfg, chunks)[i].position < cfg.offset + Total(chunks)
  {
    if chunks != [] {
      DiagnosticsOrdered(cfg, chunks[..|chunks| - 1]);
    }
  }

  /** Without auto mode the noise average stays 0. */
  lemma {:induction false} AverageOnlyInAutoMode(cfg: Config, chunks: seq<seq<Byte>>)
    requires cfg.Valid() && ValidReads(cfg.blockSize, chunks) && !cfg.autoMode
    ensures Process(cfg, chunks).avg == 0
  {
    if chunks != [] {
      AverageOnlyInAutoMode(cfg, chunks[..|chunks| - 1]);
    }
  }

  /** The noise average is advisory: switching auto mode on or off changes nothing the
      run writes or reports, nor its event state. */
  lemma {:induction false} AutoModeIsAdvisory(cfg: Config, chunks: seq<seq<Byte>>, auto: bool)
    requires cfg.Valid() && ValidReads(cfg.blockSize, chunks)
    ensures var s, t := Process(cfg, chunks), Process(cfg.(autoMode := auto), chunks);
      s.(avg := 0) == t.(avg := 0)
  {
    if chunks != [] {
      AutoModeIsAdvisory(cfg, chunks[..|chunks| - 1], auto);
    }
  }

  /** The start offset only shifts positions: the blocks written, the buffers, the event
      state and the counters do not depend on it, and every report keeps its kind and
      moves by the change of offset. */
  lemma {:induction false} OffsetOnlyShiftsPositions(cfg: Config, chunks: seq<seq<Byte>>, offset: nat)
    requires cfg.Valid() && ValidReads(cfg.blockSize, chunks)
    ensures var s, t := Process(cfg, chunks), Process(cfg.(offset := offset), chunks);
      && s.(position := 0, log := []) == t.(position := 0, log := [])
      && t.position + cfg.offset == s.position + offset
      && |t.log| == |s.log|
      && forall i :: 0 <= i < |s.log| ==>
           t.log[i].EventStart? == s.log[i].EventStart? && t.log[i].position + cfg.offset == s.log[i].position + offset
  {
    if chunks != [] {
      OffsetOnlyShiftsPositions(cfg, chunks[..|chunks| - 1], offset);
    }
  }

  /** The noise average moves only on noise blocks: a signal read leaves it as it was. */
  lemma SignalKeepsAverage(cfg: Config, chunks: seq<seq<Byte>>, x: seq<Byte>)
    requires cfg.Valid() && ValidReads(cfg.blockSize, chunks) && IsRead(cfg.blockSize, x)
    requires ReadIsSignal(cfg, x)
    ensures ValidReads(cfg.blockSize, chunks + [x])
    ensures Process(cfg, chunks + [x]).avg == Process(cfg, chunks).avg
  {
    ValidReadsAppend(cfg.blockSize, chunks, [x]);
    assert (chunks + [x])[..|chunks|] == chunks;
  }

  /** Once the run is quiet, noise reads write nothing. */
  lemma {:induction false} QuietStaysQuiet(cfg: Config, pre: seq<seq<Byte>>, post: seq<seq<Byte>>)
    requires ValidReads(cfg.blockSize, pre) && ValidReads(cfg.blockSize, post) && !LastIsSignal(cfg, pre)
    requires forall k :: 0 <= k < |post| ==> !ReadIsSignal(cfg, post[k])
    ensures ValidReads(cfg.blockSize, pre + post)
    ensures Emitted(cfg, pre + post) == Emitted(cfg, pre)
  {
    ValidReadsAppend(cfg.blockSize, pre, post);
    if post == [] {
      assert pre + post == pre;
    } else {
      var shorter := post[..|post| - 1];
      assert (pre + post)[..|pre + post| - 1] == pre + shorter;
      QuietStaysQuiet(cfg, pre, shorter);
      if shorter == [] {
        assert pre + shorter == pre;
      }
    }
  }

  /** One signal read between noise: with padding it is written together with the block
      before it and the block after it, three blocks in all; without padding alone. */
  lemma IsolatedSignal(cfg: Config, pre: seq<seq<Byte>>, x: seq<Byte>, y: seq<Byte>)
    requires ValidReads(cfg.blockSize, pre) && IsRead(cfg.blockSize, x) && IsRead(cfg.blockSize, y)
    requires !LastIsSignal(cfg, pre) && ReadIsSignal(cfg, x) && !ReadIsSignal(cfg, y)
    ensures ValidReads(cfg.blockSize, pre + [x]) && ValidReads(cfg.blockSize, pre + [x, y])
    ensures cfg.padding ==>
      Emitted(cfg, pre + [x, y])
      == Emitted(cfg, pre) + [Filled(cfg.blockSize, pre), Filled(cfg.blockSize, pre + [x]), Filled(cfg.blockSize, pre + [x, y])]
    ensures !cfg.padding ==> Emitted(cfg, pre + [x, y]) == Emitted(cfg, pre) + [Filled(cfg.blockSize, pre + [x])]
  {
    ValidReadsAppend(cfg.blockSize, pre, [x]);
    ValidReadsAppend(cfg.blockSize, pre, [x, y]);
    assert (pre + [x, y])[..|pre| + 1] == pre + [x];
    assert (pre + [x])[..|pre|] == pre;
  }

  /** Signal, noise, signal with padding: the noise block in the middle closes the first
      event as its trailing pad and opens the second as its pre-pad, so it is written twice. */
  lemma SignalNoiseSignal(cfg: Config, pre: seq<seq<Byte>>, x: seq<Byte>, y: seq<Byte>, z: seq<Byte>)
    requires ValidReads(cfg.blockSize, pre) && IsRead(cfg.blockSize, x) && IsRead(cfg.blockSize, y) && IsRead(cfg.blockSize, z)
    requires ReadIsSignal(cfg, x) && !ReadIsSignal(cfg, y) && ReadIsSignal(cfg, z) && cfg.padding
    ensures ValidReads(cfg.blockSize, pre + [x]) && ValidReads(cfg.blockSize, pre + [x, y])
    ensures ValidReads(cfg.blockSize, pre + [x, y, z])
    ensures Emitted(cfg, pre + [x, y, z]) == Emitted(cfg, pre + [x])
      + [Filled(cfg.blockSize, pre + [x, y]), Filled(cfg.blockSize, pre + [x, y]), Filled(cfg.blockSize, pre + [x, y, z])]
  {
    ValidReadsAppend(cfg.blockSize, pre, [x]);
    ValidReadsAppend(cfg.blockSize, pre, [x, y]);
    ValidReadsAppend(cfg.blockSize, pre, [x, y, z]);
    assert (pre + [x, y, z])[..|pre| + 2] == pre + [x, y];
    assert (pre + [x, y])[..|pre| + 1] == pre + [x];
  }

  /** A signal first read with padding is pre-padded by the zeroed buffer, and its own
      block is the read followed by zeros. */
  lemma FirstPrePadIsZeros(cfg: Config, x: seq<Byte>)
    requires IsRead(cfg.blockSize, x) && ReadIsSignal(cfg, x) && cfg.padding
    ensures ValidReads(cfg.blockSize, [x])
    ensures Emitted(cfg, [x]) == [Zeros(2 * cfg.blockSize), x + Zeros(2 * cfg.blockSize - |x|)]
  {
    assert [x][..0] == [];
    var z := Zeros(2 * cfg.blockSize);
    assert z[|x|..] == Zeros(2 * cfg.blockSize - |x|);
  }
}
