/** What every run of a stream's read side guarantees to its readers. */
module ReadTheorems {
  import opened Bytes
  import opened Capy
  import opened ReadSide

  // ------------------------------------------------- the fast path refines a plain queue

  /** The reference: one flat queue, no chunks, no sink. A read is served from the front of the
      queue at the moment it runs. */
  datatype Fifo = Fifo(queue: seq<byte>, ended: bool, closed: bool, reader: Option<nat>,
                       ready: AsyncEvent)

  datatype FifoReaction = FifoReaction(state: Fifo, outcome: ReadOutcome)

  function Serve(f: Fifo, capacity: nat, ok: bool): FifoReaction {
    if capacity > 0 && f.queue != [] then
      var n := Min(capacity, |f.queue|);
      FifoReaction(f.(queue := f.queue[n..]), GotBytes(f.queue[..n]))
    else if !ok then FifoReaction(f, ReadFailed(Canceled))
    else if f.ended then FifoReaction(f, ReadFailed(Eof))
    else if f.closed then FifoReaction(f, ReadFailed(StreamTruncated))
    else FifoReaction(f.(reader := Some(capacity), ready := f.ready.Clear().Wait()), ReadSuspended)
  }

  function FifoStep(f: Fifo, e: ReadEvent): FifoReaction {
    match e
    case ReadBegin(capacity) => Serve(f, capacity, true)
    case ReadResume =>
      if f.reader.Some? && f.ready.waiter.Posted? then
        Serve(f.(reader := None, ready := f.ready.Resumed()), f.reader.value, f.ready.waiter.ok)
      else FifoReaction(f, ReadSuspended)
    case ReadCancel => FifoReaction(f.(ready := f.ready.Cancel()), ReadSuspended)
    case Data(bytes) => FifoReaction(f.(queue := f.queue + bytes, ready := f.ready.Set()), ReadSuspended)
    case EndStream => FifoReaction(f.(ended := true, ready := f.ready.Set()), ReadSuspended)
    case ReadClose => FifoReaction(f.(closed := true, ready := f.ready.Set()), ReadSuspended)
    case Credit(_) => FifoReaction(f, ReadSuspended)
  }

  function AsFifo(s: ReadState): Fifo {
    Fifo(Backlog(s), s.readEof, s.closed,
         if s.sink.Some? then Some(s.sink.value.capacity) else None, s.readReady)
  }

  lemma ServesIsServe(f: Fifo, capacity: nat, ok: bool, outcome: ReadOutcome, left: seq<byte>)
    requires Serves(f.queue, capacity, outcome, left)
    requires outcome.GotBytes? ==> outcome.data != []
    ensures outcome.GotBytes? ==> Serve(f, capacity, ok) == FifoReaction(f.(queue := left), outcome)
    ensures !outcome.GotBytes? ==> left == f.queue && !(capacity > 0 && f.queue != [])
  {
    if outcome.GotBytes? {
      var n := Min(capacity, |f.queue|);
      assert outcome.data == f.queue[..n] && left == f.queue[n..];
    }
  }

  lemma BeginRefinesFifo(s: ReadState, capacity: nat)
    requires ReadStateInv(s) && s.readReady.waiter.Nobody?
    ensures var r := BeginRead(s, capacity);
            Serve(AsFifo(s), capacity, true) == FifoReaction(AsFifo(r.state), r.outcome)
  {
    BeginReadTakes(s, capacity);
    var r := BeginRead(s, capacity);
    ServesIsServe(AsFifo(s), capacity, true, r.outcome, Backlog(r.state));
  }

  lemma ResumeRefinesFifo(s: ReadState)
    requires ReadStateInv(s) && s.readReady.waiter.Posted? && s.sink.Some?
    ensures var r, f := ResumeRead(s), AsFifo(s).(reader := None, ready := s.readReady.Resumed());
            Serve(f, s.sink.value.capacity, s.readReady.waiter.ok) == FifoReaction(AsFifo(r.state), r.outcome)
  {
    ResumeReadTakes(s);
    var r, f := ResumeRead(s), AsFifo(s).(reader := None, ready := s.readReady.Resumed());
    ServesIsServe(f, s.sink.value.capacity, s.readReady.waiter.ok, r.outcome, Backlog(r.state));
  }

  /** The stream and the plain queue make the same step and give the reader the same answer. */
  lemma StepRefinesFifo(w: ReadWorld, e: ReadEvent)
    requires ReadInv(w) && ReadEnabled(w, e)
    ensures FifoStep(AsFifo(w.s), e) == FifoReaction(AsFifo(ReadStep(w, e).s), ReadResult(w, e))
  {
    match e
    case ReadBegin(capacity) => BeginRefinesFifo(w.s, capacity);
    case ReadResume => ResumeRefinesFifo(w.s);
    case Data(bytes) => DataAppends(w.s, bytes);
    case _ =>
  }

  function Results(w: ReadWorld, run: seq<ReadEvent>): seq<ReadOutcome>
    requires ReadValid(w, run)
    decreases |run|
  {
    if run == [] then [] else [ReadResult(w, run[0])] + Results(ReadStep(w, run[0]), run[1..])
  }

  function FifoResults(f: Fifo, run: seq<ReadEvent>): seq<ReadOutcome>
    decreases |run|
  {
    if run == [] then [] else [FifoStep(f, run[0]).outcome] + FifoResults(FifoStep(f, run[0]).state, run[1..])
  }

  /** Direct sink delivery is invisible: over every interleaving of arrivals, reads, cancellations,
      END_STREAM and close, readers see exactly what the plain queue would have given them. */
  lemma {:induction false} RunRefinesFifo(w: ReadWorld, run: seq<ReadEvent>)
    requires ReadInv(w) && ReadValid(w, run)
    ensures Results(w, run) == FifoResults(AsFifo(w.s), run)
    decreases |run|
  {
    if run != [] {
      StepRefinesFifo(w, run[0]);
      StepKeepsReadInv(w, run[0]);
      RunRefinesFifo(ReadStep(w, run[0]), run[1..]);
    }
  }

  // -------------------------------------------------------------- order, loss and flow control

  /** In every reachable state: readers were handed a prefix of what arrived, nothing between it and
      the backlog is missing or repeated, nghttp2 was told of exactly the bytes handed out, and the
      backlog never exceeds the advertised window. */
  lemma ReadsAreFaithful(run: seq<ReadEvent>)
    requires ReadValid(NEW_READ_WORLD, run)
    ensures var w := ReadRun(NEW_READ_WORLD, run);
            && w.received == w.returned + Backlog(w.s)
            && w.consumed == |w.returned|
            && |w.received| - w.consumed == |Backlog(w.s)| <= WINDOW_SIZE
  {
    RunKeepsReadInv(NEW_READ_WORLD, run);
  }

  /** A suspended reader whose wait has not been ended has missed nothing: no byte, no END_STREAM, no
      close. Only a destination without room can be parked in front of queued bytes. */
  lemma NoReaderForgotten(run: seq<ReadEvent>)
    requires ReadValid(NEW_READ_WORLD, run)
    ensures var s := ReadRun(NEW_READ_WORLD, run).s;
            s.readReady.waiter.Waiting? ==>
              && s.sink.Some? && s.sink.value.got == [] && !s.readEof && !s.closed
              && (s.sink.value.capacity > 0 ==> s.chunks == [])
  {
    RunKeepsReadInv(NEW_READ_WORLD, run);
  }

  lemma TwoReadSteps(w: ReadWorld, e: ReadEvent, f: ReadEvent)
    requires ReadEnabled(w, e) && ReadEnabled(ReadStep(w, e), f)
    ensures ReadValid(w, [e, f]) && ReadRun(w, [e, f]) == ReadStep(ReadStep(w, e), f)
  {
    hide ReadStep, ReadEnabled;
    var w1, w2 := ReadStep(w, e), ReadStep(ReadStep(w, e), f);
    assert [e, f][1..] == [f] && [f][1..] == [];
    assert ReadValid(w2, []) && ReadRun(w2, []) == w2;
    assert ReadValid(w1, [f]) && ReadRun(w1, [f]) == ReadRun(w2, []);
  }

  /** No run parks a reader of this capacity in front of bytes. */
  ghost predicate NeverParksOnBytes(capacity: nat) {
    forall run :: ReadValid(NEW_READ_WORLD, run) ==>
      var s := ReadRun(NEW_READ_WORLD, run).s;
      s.readReady.waiter.Waiting? && s.sink.Some? && s.sink.value.capacity == capacity ==> Backlog(s) == []
  }

  /** A read can be parked for good in front of queued bytes exactly if it brings no room. */
  lemma ParkingIsSafeExactly(capacity: nat)
    ensures NeverParksOnBytes(capacity) <==> capacity > 0
  {
    if capacity > 0 {
      forall run | ReadValid(NEW_READ_WORLD, run)
        ensures var s := ReadRun(NEW_READ_WORLD, run).s;
                s.readReady.waiter.Waiting? && s.sink.Some? && s.sink.value.capacity == capacity ==> Backlog(s) == []
      {
        NoReaderForgotten(run);
      }
    } else {
      var run := [Data([7]), ReadBegin(0)];
      var w1 := ReadStep(NEW_READ_WORLD, run[0]);
      var w2 := ReadStep(w1, run[1]);
      TwoReadSteps(NEW_READ_WORLD, run[0], run[1]);
      assert [[7]][1..] == [];
      assert w1.s.chunks == [[7]] && w2.s.chunks == w1.s.chunks && Backlog(w2.s) == [7];
    }
  }

  // ---------------------------------------------------------------------- end-of-body verdict

  lemma NewReadWorldInv()
    ensures ReadInv(NEW_READ_WORLD)
  {}

  lemma {:induction false} FlagsRecordCallbacks(w: ReadWorld, run: seq<ReadEvent>)
    requires ReadValid(w, run)
    ensures var v := ReadRun(w, run).s;
            && (v.readEof <==> w.s.readEof || EndStream in run)
            && (v.closed <==> w.s.closed || ReadClose in run)
    decreases |run|
  {
    if run != [] {
      FlagsRecordCallbacks(ReadStep(w, run[0]), run[1..]);
      assert run == [run[0]] + run[1..];
    }
  }

  /** The room the reader of event `e` brings. */
  function Asked(s: ReadState, e: ReadEvent): nat {
    if e.ReadBegin? then e.capacity else if s.sink.Some? then s.sink.value.capacity else 0
  }

  predicate IsVerdict(outcome: ReadOutcome) {
    outcome == ReadFailed(Eof) || outcome == ReadFailed(StreamTruncated)
  }

  /** A verdict is sound: every byte that ever arrived was handed out before, and it is `eof` exactly
      when END_STREAM arrived, `stream_truncated` exactly when the stream was closed without it. */
  lemma VerdictIsSound(run: seq<ReadEvent>, e: ReadEvent)
    requires ReadValid(NEW_READ_WORLD, run)
    requires var w := ReadRun(NEW_READ_WORLD, run);
             ReadEnabled(w, e) && IsVerdict(ReadResult(w, e)) && Asked(w.s, e) > 0
    ensures var w := ReadRun(NEW_READ_WORLD, run);
            && w.returned == w.received
            && (ReadResult(w, e) == ReadFailed(Eof) <==> EndStream in run)
            && (ReadResult(w, e) == ReadFailed(StreamTruncated) ==> ReadClose in run)
  {
    hide ReadValid, ReadRun, Drain;
    NewReadWorldInv();
    RunKeepsReadInv(NEW_READ_WORLD, run);
    FlagsRecordCallbacks(NEW_READ_WORLD, run);
    var w := ReadRun(NEW_READ_WORLD, run);
    if e.ReadBegin? {
      BeginReadTakes(w.s, e.capacity);
    } else {
      ResumeReadTakes(w.s);
    }
    assert Backlog(w.s) == [];
  }

  /** A verdict is complete: once END_STREAM or close has been seen and every byte handed out, a read
      that begins, or resumes without having been cancelled, answers with it instead of suspending. */
  lemma VerdictIsComplete(run: seq<ReadEvent>, e: ReadEvent)
    requires ReadValid(NEW_READ_WORLD, run)
    requires var w := ReadRun(NEW_READ_WORLD, run);
             && w.returned == w.received && ReadEnabled(w, e)
             && (e.ReadBegin? || (e.ReadResume? && w.s.readReady.waiter == Posted(true)))
    requires EndStream in run || ReadClose in run
    ensures ReadResult(ReadRun(NEW_READ_WORLD, run), e) ==
            ReadFailed(if EndStream in run then Eof else StreamTruncated)
  {
    hide ReadValid, ReadRun, Drain, Queued;
    NewReadWorldInv();
    RunKeepsReadInv(NEW_READ_WORLD, run);
    FlagsRecordCallbacks(NEW_READ_WORLD, run);
    var w := ReadRun(NEW_READ_WORLD, run);
    assert Backlog(w.s) == [];
    if e.ReadBegin? {
      NothingToRead(w.s, e.capacity);
    }
  }

  lemma NothingToRead(s: ReadState, capacity: nat)
    requires ReadStateInv(s) && s.readReady.waiter.Nobody? && Backlog(s) == [] && (s.readEof || s.closed)
    ensures BeginRead(s, capacity).outcome == ReadFailed(EofError(s.readEof))
  {
    hide Drain, Queued, QueueShape;
    BeginReadTakes(s, capacity);
  }

  /** Nothing more can arrive, nothing is buffered, nobody is suspended. */
  ghost predicate Over(s: ReadState) {
    && ReadStateInv(s) && s.sink.None? && s.chunks == []
    && (s.readEof || s.closed)
  }

  lemma OverStaysOver(w: ReadWorld, e: ReadEvent)
    requires Over(w.s) && ReadEnabled(w, e)
    ensures Over(ReadStep(w, e).s)
    ensures EofError(ReadStep(w, e).s.readEof) == EofError(w.s.readEof)
    ensures e.ReadBegin? ==> ReadResult(w, e) == ReadFailed(EofError(w.s.readEof))
    ensures !e.ReadResume?
  {
    hide Flatten, Queued;
  }

  lemma {:induction false} OverForever(w: ReadWorld, run: seq<ReadEvent>)
    requires Over(w.s) && ReadValid(w, run)
    ensures Over(ReadRun(w, run).s)
    ensures EofError(ReadRun(w, run).s.readEof) == EofError(w.s.readEof)
    decreases |run|
  {
    hide Over, ReadStep, ReadEnabled;
    if run != [] {
      OverStaysOver(w, run[0]);
      OverForever(ReadStep(w, run[0]), run[1..]);
    }
  }

  lemma VerdictMeansOver(w: ReadWorld, e: ReadEvent)
    requires ReadStateInv(w.s) && ReadEnabled(w, e) && IsVerdict(ReadResult(w, e)) && Asked(w.s, e) > 0
    ensures var s := ReadStep(w, e).s; Over(s) && ReadResult(w, e) == ReadFailed(EofError(s.readEof))
  {
    hide Drain, Queued, QueueShape, FrameInv;
    if e.ReadBegin? {
      BeginReadTakes(w.s, e.capacity);
    } else {
      ResumeReadTakes(w.s);
    }
    var s := ReadStep(w, e).s;
    QueueHasBytes(s.chunks, s.frontOffset);
  }

  /** A verdict is final: whatever happens afterwards, every later read gets the same one. */
  lemma VerdictIsFinal(w: ReadWorld, e: ReadEvent, later: seq<ReadEvent>, f: ReadEvent)
    requires ReadInv(w) && ReadEnabled(w, e) && IsVerdict(ReadResult(w, e)) && Asked(w.s, e) > 0
    requires ReadValid(ReadStep(w, e), later)
    requires ReadEnabled(ReadRun(ReadStep(w, e), later), f) && (f.ReadBegin? || f.ReadResume?)
    ensures ReadResult(ReadRun(ReadStep(w, e), later), f) == ReadResult(w, e)
  {
    hide ReadStateInv, FlowInv, ReadEnabled, ReadStep, ReadResult, ReadRun, ReadValid, Over;
    VerdictMeansOver(w, e);
    var v := ReadStep(w, e);
    OverForever(v, later);
    OverStaysOver(ReadRun(v, later), f);
  }

  /** No run gives a read of this capacity a verdict before every byte was handed out. */
  ghost predicate NeverEarly(capacity: nat) {
    forall run :: ReadValid(NEW_READ_WORLD, run) ==>
      var w := ReadRun(NEW_READ_WORLD, run);
      ReadEnabled(w, ReadBegin(capacity)) && IsVerdict(ReadResult(w, ReadBegin(capacity))) ==> w.returned == w.received
  }

  /** Room matters: a read can be told `eof` while bytes are still waiting exactly if it brings none. */
  lemma VerdictIsTimelyExactly(capacity: nat)
    ensures NeverEarly(capacity) <==> capacity > 0
  {
    if capacity > 0 {
      forall run | ReadValid(NEW_READ_WORLD, run)
        ensures var w := ReadRun(NEW_READ_WORLD, run);
                ReadEnabled(w, ReadBegin(capacity)) && IsVerdict(ReadResult(w, ReadBegin(capacity))) ==>
                  w.returned == w.received
      {
        var w := ReadRun(NEW_READ_WORLD, run);
        if ReadEnabled(w, ReadBegin(capacity)) && IsVerdict(ReadResult(w, ReadBegin(capacity))) {
          VerdictIsSound(run, ReadBegin(capacity));
        }
      }
    } else {
      var run := [Data([7]), EndStream];
      var w1 := ReadStep(NEW_READ_WORLD, run[0]);
      var w2 := ReadStep(w1, run[1]);
      TwoReadSteps(NEW_READ_WORLD, run[0], run[1]);
      assert ReadResult(w2, ReadBegin(0)) == ReadFailed(Eof);
    }
  }
}
