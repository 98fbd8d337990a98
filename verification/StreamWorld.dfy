/** One stream object: its read side, its write side and its status wait, which share nothing but the
    close of the stream. */
module StreamWorld {
  import opened Bytes
  import opened Capy
  import opened ReadSide
  import opened WriteSide
  import opened StatusSide

  datatype Stream = Stream(rd: ReadWorld, wr: WriteWorld, st: StatusState) {
    predicate Closed() { rd.s.closed }
  }

  datatype StreamEvent =
    | OnRead(r: ReadEvent) | OnWrite(w: WriteEvent) | OnStatus(s: StatusEvent) | Close

  function NewStream(sendWindow: int): Stream {
    Stream(NEW_READ_WORLD, NewWriteWorld(sendWindow), NEW_STATUS_STATE)
  }

  predicate StreamEnabled(x: Stream, e: StreamEvent) {
    match e
    case OnRead(r) => r != ReadClose && ReadEnabled(x.rd, r)
    case OnWrite(w) => w != WriteClose && WriteEnabled(x.wr, w)
    case OnStatus(s) => s != StatusClose && StatusEnabled(x.st, s)
    case Close => !x.rd.s.closed && !x.wr.s.closed && !x.st.closed
  }

  /** Close is on_close(): one call that marks and wakes all three. */
  function StreamStep(x: Stream, e: StreamEvent): Stream
    requires StreamEnabled(x, e)
  {
    match e
    case OnRead(r) => x.(rd := ReadStep(x.rd, r))
    case OnWrite(w) => x.(wr := WriteStep(x.wr, w))
    case OnStatus(s) => x.(st := StatusStep(x.st, s))
    case Close => Stream(ReadStep(x.rd, ReadClose), WriteStep(x.wr, WriteClose), StatusStep(x.st, StatusClose))
  }

  ghost predicate StreamInv(x: Stream) {
    && x.rd.s.closed == x.wr.s.closed == x.st.closed
    && ReadInv(x.rd) && WriteInv(x.wr) && StatusInv(x.st)
  }

  lemma Sides(x: Stream)
    requires StreamInv(x)
    ensures ReadInv(x.rd) && WriteInv(x.wr)
  {
    hide ReadInv, WriteInv;
  }

  lemma ReadStepCloses(w: ReadWorld, e: ReadEvent)
    requires ReadEnabled(w, e)
    ensures ReadStep(w, e).s.closed == (w.s.closed || e == ReadClose)
  {}

  lemma StepKeepsStreamInv(x: Stream, e: StreamEvent)
    requires StreamInv(x) && StreamEnabled(x, e)
    ensures StreamInv(StreamStep(x, e))
  {
    hide ReadStep, WriteStep, ReadInv, WriteInv;
    match e
    case OnRead(r) =>
      StepKeepsReadInv(x.rd, r);
      ReadStepCloses(x.rd, r);
    case OnWrite(w) =>
      StepKeepsWriteInv(x.wr, w);
      WriteStepCloses(x.wr, w);
    case OnStatus(_) =>
    case Close =>
      StepKeepsReadInv(x.rd, ReadClose);
      StepKeepsWriteInv(x.wr, WriteClose);
      ReadStepCloses(x.rd, ReadClose);
      WriteStepCloses(x.wr, WriteClose);
  }

  // ----------------------------------------------- a stream's run is a run of each of its sides

  ghost predicate ReadReached(rd: ReadWorld) {
    exists run :: ReadValid(NEW_READ_WORLD, run) && ReadRun(NEW_READ_WORLD, run) == rd
  }

  ghost predicate WriteReached(wr: WriteWorld) {
    exists window, run :: WriteValid(NewWriteWorld(window), run) && WriteRun(NewWriteWorld(window), run) == wr
  }

  /** The stream got here by runs of its sides from a new stream. */
  ghost predicate Reachable(x: Stream) {
    StreamInv(x) && ReadReached(x.rd) && WriteReached(x.wr)
  }

  lemma {:induction false} ReadRunSnoc(w: ReadWorld, run: seq<ReadEvent>, e: ReadEvent)
    requires ReadValid(w, run) && ReadEnabled(ReadRun(w, run), e)
    ensures ReadValid(w, run + [e]) && ReadRun(w, run + [e]) == ReadStep(ReadRun(w, run), e)
    decreases |run|
  {
    if run == [] {
      assert (run + [e])[1..] == [];
    } else {
      assert (run + [e])[1..] == run[1..] + [e];
      ReadRunSnoc(ReadStep(w, run[0]), run[1..], e);
    }
  }

  lemma {:induction false} WriteRunSnoc(w: WriteWorld, run: seq<WriteEvent>, e: WriteEvent)
    requires WriteValid(w, run) && WriteEnabled(WriteRun(w, run), e)
    ensures WriteValid(w, run + [e]) && WriteRun(w, run + [e]) == WriteStep(WriteRun(w, run), e)
    decreases |run|
  {
    if run == [] {
      assert (run + [e])[1..] == [];
    } else {
      assert (run + [e])[1..] == run[1..] + [e];
      WriteRunSnoc(WriteStep(w, run[0]), run[1..], e);
    }
  }

  lemma NewStreamReachable(window: int)
    ensures Reachable(NewStream(window))
  {
    assert ReadValid(NEW_READ_WORLD, []) && ReadRun(NEW_READ_WORLD, []) == NEW_READ_WORLD;
    assert WriteValid(NewWriteWorld(window), []) && WriteRun(NewWriteWorld(window), []) == NewWriteWorld(window);
  }

  lemma ExtendRead(rd: ReadWorld, e: ReadEvent)
    requires ReadEnabled(rd, e) && ReadReached(rd)
    ensures ReadReached(ReadStep(rd, e))
  {
    var run :| ReadValid(NEW_READ_WORLD, run) && ReadRun(NEW_READ_WORLD, run) == rd;
    ReadRunSnoc(NEW_READ_WORLD, run, e);
  }

  lemma ExtendWrite(wr: WriteWorld, e: WriteEvent)
    requires WriteEnabled(wr, e) && WriteReached(wr)
    ensures WriteReached(WriteStep(wr, e))
  {
    var window, run :| WriteValid(NewWriteWorld(window), run) && WriteRun(NewWriteWorld(window), run) == wr;
    WriteRunSnoc(NewWriteWorld(window), run, e);
  }

  lemma StepKeepsReachable(x: Stream, e: StreamEvent)
    requires Reachable(x) && StreamEnabled(x, e)
    ensures Reachable(StreamStep(x, e))
  {
    hide StreamInv, ReadReached, WriteReached, ReadStep, WriteStep;
    StepKeepsStreamInv(x, e);
    match e
    case OnRead(r) => ExtendRead(x.rd, r);
    case OnWrite(w) => ExtendWrite(x.wr, w);
    case OnStatus(_) =>
    case Close =>
      ExtendRead(x.rd, ReadClose);
      ExtendWrite(x.wr, WriteClose);
  }
}
