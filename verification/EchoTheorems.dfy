/** How the echo handler gets to its end: for which cause it leaves its loop and how it reports, that it
    never goes round on its own, and when it submits. */
module EchoTheorems {
  import opened Bytes
  import opened Capy
  import opened ReadSide
  import opened WriteSide
  import opened StatusSide
  import opened StreamWorld
  import opened ReadTheorems
  import opened Echo

  // ------------------------------------------------------------------------------------- causes

  /** The handler is out of its loop. */
  predicate Left(h: Echo) {
    h.pc.Finishing? || h.pc.CallEof? || h.pc.AwaitEof? || (h.pc.Ended? && h.pc.how.Through?) || h.x.wr.eofRaised
  }

  /** It left for an error of a read or a write, and these are what they say: a refused write and a
      truncated request are those of a closed stream, on which no final write_eof is begun. */
  ghost predicate CauseInv(h: Echo) {
    && (Reading(h.pc) ==> h.failure.None?)
    && (Left(h) ==> h.verdict.Some? || h.failure.Some?)
    && (h.failure.Some? ==> h.failure == Some(Canceled) || (h.failure == Some(Eof) && h.x.wr.s.closed))
    && (h.verdict == Some(StreamTruncated) ==> h.x.wr.s.closed)
    && (h.pc.AwaitEof? || h.x.wr.eofRaised ==> h.verdict != Some(StreamTruncated) && h.failure != Some(Eof))
    && (h.pc.Ended? && h.pc.how.Through? && h.pc.how.error.Some? ==>
          h.pc.how.error == Some(Canceled) || (h.pc.how.error == Some(Eof) && h.x.wr.s.closed))
  }

  lemma EofIsLate(h: Echo)
    requires BytesInv(h)
    ensures h.x.wr.eofRaised ==> h.pc.AwaitEof? || h.pc.Ended?
    ensures Reading(h.pc) ==> h.verdict.None?
  {
    hide Held, Over;
  }

  lemma StaysClosed(x: Stream, e: StreamEvent)
    requires StreamInv(x) && StreamEnabled(x, e)
    ensures StreamStep(x, e).wr.s.closed <==> x.wr.s.closed || e.Close?
  {
    hide StreamInv, WriteStep, ReadStep, WriteEnabled;
    match e
    case OnWrite(w) => WriteStepCloses(x.wr, w);
    case Close =>
      Closable(x);
      WriteStepCloses(x.wr, WriteClose);
    case _ =>
  }

  lemma TruncatedIsClosed(s: ReadState, capacity: nat)
    ensures BeginRead(s, capacity).outcome == ReadFailed(StreamTruncated) ==> s.closed
    ensures s.sink.Some? && s.readReady.waiter.Posted? && ResumeRead(s).outcome == ReadFailed(StreamTruncated) ==> s.closed
  {
    hide Drain;
  }

  lemma WriteErrors(w: WriteWorld, buffers: Buffers, eof: bool)
    ensures BeginWrite(w.s, Capped(buffers), eof).outcome == if w.s.closed then WriteDone(Some(Eof), 0) else WriteSuspended
    ensures w.s.writeProgress.waiter.Posted? ==>
              ResumeWrite(w.s).outcome ==
              WriteDone(if w.s.writeProgress.waiter.ok then None else Some(Canceled), w.s.writeOffset)
  {
    hide Capped;
  }

  lemma EnvKeepsCause(h: Echo, e: StreamEvent)
    requires EchoInv(h) && CauseInv(h) && Enabled(h, Env(e))
    ensures CauseInv(Step(h, Env(e)))
  {
    hide StreamInv, CallsInv, StreamStep, StreamEnabled;
    EofStep(h, Env(e));
    StaysClosed(h.x, e);
    EofIsLate(h);
    hide BytesInv;
  }

  lemma ReadKeepsCause(h: Echo, accepted: bool)
    requires EchoInv(h) && CauseInv(h) && Enabled(h, Go(accepted)) && (h.pc.CallRead? || h.pc.AwaitRead?)
    ensures CauseInv(Step(h, Go(accepted)))
  {
    hide StreamInv, CallsInv, StreamStep, BeginRead, ResumeRead, BeginWrite, ResumeWrite, Submitting;
    EofStep(h, Go(accepted));
    EofIsLate(h);
    hide BytesInv;
    TruncatedIsClosed(h.x.rd.s, BUFFER);
    SidesCloseTogether(h.x);
    StaysClosed(h.x, if h.pc.CallRead? then OnRead(ReadBegin(BUFFER)) else OnRead(ReadResume));
  }

  lemma WriteKeepsCause(h: Echo, accepted: bool)
    requires EchoInv(h) && CauseInv(h) && Enabled(h, Go(accepted)) && (h.pc.CallWrite? || h.pc.AwaitWrite?)
    ensures CauseInv(Step(h, Go(accepted)))
  {
    hide StreamInv, CallsInv, StreamStep, BeginRead, ResumeRead, BeginWrite, ResumeWrite, Submitting, Capped;
    EofStep(h, Go(accepted));
    EofIsLate(h);
    hide BytesInv;
    WriteErrors(h.x.wr, [h.pc.rest], false);
    if h.pc.AwaitWrite? {
      StaysClosed(h.x, OnWrite(WriteResume));
    } else if h.pc.rest != [] {
      StaysClosed(h.x, OnWrite(WriteBegin([h.pc.rest], false)));
    }
  }

  lemma EofKeepsCause(h: Echo, accepted: bool)
    requires EchoInv(h) && CauseInv(h) && Enabled(h, Go(accepted)) && (h.pc.CallEof? || h.pc.AwaitEof?)
    ensures CauseInv(Step(h, Go(accepted)))
  {
    hide StreamInv, CallsInv, StreamStep, BeginRead, ResumeRead, BeginWrite, ResumeWrite, Submitting, Capped;
    EofStep(h, Go(accepted));
    EofIsLate(h);
    hide BytesInv;
    WriteErrors(h.x.wr, [], true);
    StaysClosed(h.x, if h.pc.CallEof? then OnWrite(WriteBegin([], true)) else OnWrite(WriteResume));
  }

  lemma SubmitKeepsCause(h: Echo, accepted: bool)
    requires EchoInv(h) && CauseInv(h) && (h.pc.Starting? || h.pc.GotChunk? || h.pc.Finishing?)
    ensures CauseInv(Step(h, Go(accepted)))
  {
    hide StreamInv, CallsInv, StreamStep, StreamEnabled, BeginRead, ResumeRead, BeginWrite, ResumeWrite;
    EofStep(h, Go(accepted));
    EofIsLate(h);
    hide BytesInv;
    if StreamEnabled(h.x, OnWrite(Submit(false))) {
      StaysClosed(h.x, OnWrite(Submit(false)));
    }
  }

  lemma StepKeepsCause(h: Echo, e: Event)
    requires EchoInv(h) && CauseInv(h) && Enabled(h, e)
    ensures CauseInv(Step(h, e))
  {
    hide EchoInv, CauseInv, Step;
    match e
    case Env(f) => EnvKeepsCause(h, f);
    case Go(accepted) =>
      match h.pc
      case CallRead => ReadKeepsCause(h, accepted);
      case AwaitRead => ReadKeepsCause(h, accepted);
      case CallWrite(_) => WriteKeepsCause(h, accepted);
      case AwaitWrite(_) => WriteKeepsCause(h, accepted);
      case CallEof => EofKeepsCause(h, accepted);
      case AwaitEof => EofKeepsCause(h, accepted);
      case _ => SubmitKeepsCause(h, accepted);
  }

  lemma {:induction false} RunKeepsCause(h: Echo, run: seq<Event>)
    requires EchoInv(h) && CauseInv(h) && Valid(h, run)
    ensures CauseInv(Run(h, run))
    decreases |run|
  {
    hide EchoInv, CauseInv, Step, Enabled;
    if run != [] {
      StepKeepsCause(h, run[0]);
      StepKeeps(h, run[0]);
      RunKeepsCause(Step(h, run[0]), run[1..]);
    }
  }

  // ------------------------------------------------------------------------ events behind causes

  /** A write of the handler has been cancelled: it has said so or will when it resumes. */
  predicate WriteCancelled(h: Echo) {
    || h.failure == Some(Canceled) || h.pc == Ended(Through(Some(Canceled)))
    || h.x.wr.s.writeProgress.waiter == Posted(false)
  }

  predicate ReadCancelled(h: Echo) {
    h.verdict == Some(Canceled) || h.x.rd.s.readReady.waiter == Posted(false)
  }

  /** What the events of a run from `h` to `g` leave behind. */
  ghost predicate Records(h: Echo, run: seq<Event>, g: Echo) {
    && (g.x.wr.s.closed <==> h.x.wr.s.closed || Env(Close) in run)
    && (g.x.rd.s.readEof <==> h.x.rd.s.readEof || Env(OnRead(EndStream)) in run)
    && (WriteCancelled(g) <==> WriteCancelled(h) || Env(OnWrite(WriteCancel)) in run)
    && (ReadCancelled(g) ==> ReadCancelled(h) || Env(OnRead(ReadCancel)) in run)
    && (g.pc == Ended(Refused) ==> h.pc == Ended(Refused) || Go(false) in run)
  }

  lemma ReadSideRecords(w: ReadWorld, e: ReadEvent)
    requires ReadEnabled(w, e)
    ensures var v := ReadStep(w, e);
            && (v.s.readEof <==> w.s.readEof || e == EndStream)
            && (v.s.readReady.waiter == Posted(false) ==> w.s.readReady.waiter == Posted(false) || e == ReadCancel)
            && (e == ReadResume ==> v.s.readReady.waiter != Posted(false))
  {
    hide Drain;
  }

  /** What one event of the stream leaves behind. */
  ghost predicate StreamRecords(x: Stream, e: StreamEvent, y: Stream) {
    && (y.wr.s.closed <==> x.wr.s.closed || e.Close?)
    && (y.rd.s.readEof <==> x.rd.s.readEof || e == OnRead(EndStream))
    && (y.wr.s.writeProgress.waiter == Posted(false) <==>
          (x.wr.s.writeProgress.waiter == Posted(false) && e != OnWrite(WriteResume)) || e == OnWrite(WriteCancel))
    && (y.rd.s.readReady.waiter == Posted(false) ==>
          x.rd.s.readReady.waiter == Posted(false) || e == OnRead(ReadCancel))
  }

  lemma StreamStepRecords(x: Stream, e: StreamEvent)
    requires StreamInv(x) && StreamEnabled(x, e)
    ensures StreamRecords(x, e, StreamStep(x, e))
  {
    hide StreamInv, WriteStep, ReadStep, WriteEnabled;
    StaysClosed(x, e);
    match e
    case OnRead(r) => ReadSideRecords(x.rd, r);
    case OnWrite(w) => CancelEffect(x.wr, w);
    case OnStatus(_) =>
    case Close =>
      Closable(x);
      ReadSideRecords(x.rd, ReadClose);
      CancelEffect(x.wr, WriteClose);
  }

  lemma CanceledReads(s: ReadState, capacity: nat)
    ensures BeginRead(s, capacity).outcome != ReadFailed(Canceled)
    ensures s.sink.Some? && s.readReady.waiter.Posted? && ResumeRead(s).outcome == ReadFailed(Canceled) ==>
              s.readReady.waiter == Posted(false)
  {
    hide Drain;
  }

  lemma EnvRecords(h: Echo, e: StreamEvent)
    requires EchoInv(h) && Enabled(h, Env(e))
    ensures Records(h, [Env(e)], Step(h, Env(e)))
  {
    hide StreamInv, CallsInv, BytesInv, StreamStep;
    StreamStepRecords(h.x, e);
  }

  lemma ReadRecords(h: Echo, accepted: bool)
    requires EchoInv(h) && Enabled(h, Go(accepted)) && (h.pc.CallRead? || h.pc.AwaitRead?)
    ensures Records(h, [Go(accepted)], Step(h, Go(accepted)))
  {
    hide StreamInv, CallsInv, BytesInv, StreamStep, BeginRead, ResumeRead, BeginWrite, ResumeWrite, Submitting;
    StreamStepRecords(h.x, if h.pc.CallRead? then OnRead(ReadBegin(BUFFER)) else OnRead(ReadResume));
    CanceledReads(h.x.rd.s, BUFFER);
  }

  lemma CallWriteRecords(h: Echo, accepted: bool)
    requires EchoInv(h) && CauseInv(h) && Enabled(h, Go(accepted)) && h.pc.CallWrite?
    ensures Records(h, [Go(accepted)], Step(h, Go(accepted)))
  {
    hide StreamInv, CallsInv, BytesInv, StreamStep, BeginRead, ResumeRead, BeginWrite, ResumeWrite, Submitting, Capped;
    WriteErrors(h.x.wr, [h.pc.rest], false);
    StreamStepRecords(h.x, OnWrite(WriteBegin([h.pc.rest], false)));
  }

  lemma AwaitWriteRecords(h: Echo, accepted: bool)
    requires EchoInv(h) && CauseInv(h) && Enabled(h, Go(accepted)) && h.pc.AwaitWrite?
    ensures Records(h, [Go(accepted)], Step(h, Go(accepted)))
  {
    hide StreamInv, CallsInv, BytesInv, StreamStep, BeginRead, ResumeRead, BeginWrite, ResumeWrite, Submitting, Capped;
    WriteErrors(h.x.wr, [], false);
    StreamStepRecords(h.x, OnWrite(WriteResume));
  }

  lemma EofRecords(h: Echo, accepted: bool)
    requires EchoInv(h) && CauseInv(h) && Enabled(h, Go(accepted)) && (h.pc.CallEof? || h.pc.AwaitEof?)
    ensures Records(h, [Go(accepted)], Step(h, Go(accepted)))
  {
    hide StreamInv, CallsInv, BytesInv, StreamStep, BeginRead, ResumeRead, BeginWrite, ResumeWrite, Submitting, Capped;
    WriteErrors(h.x.wr, [], true);
    StreamStepRecords(h.x, if h.pc.CallEof? then OnWrite(WriteBegin([], true)) else OnWrite(WriteResume));
  }

  lemma SubmitRecords(h: Echo, accepted: bool)
    requires EchoInv(h) && (h.pc.Starting? || h.pc.GotChunk? || h.pc.Finishing?)
    ensures Records(h, [Go(accepted)], Step(h, Go(accepted)))
  {
    hide StreamInv, CallsInv, BytesInv, StreamStep, StreamEnabled, BeginRead, ResumeRead, BeginWrite, ResumeWrite;
    if StreamEnabled(h.x, OnWrite(Submit(false))) {
      StreamStepRecords(h.x, OnWrite(Submit(false)));
    }
  }

  lemma StepRecords(h: Echo, e: Event)
    requires EchoInv(h) && CauseInv(h) && Enabled(h, e)
    ensures Records(h, [e], Step(h, e))
  {
    hide EchoInv, CauseInv, Records, Step;
    match e
    case Env(f) => EnvRecords(h, f);
    case Go(accepted) =>
      match h.pc
      case CallRead => ReadRecords(h, accepted);
      case AwaitRead => ReadRecords(h, accepted);
      case CallWrite(_) => CallWriteRecords(h, accepted);
      case AwaitWrite(_) => AwaitWriteRecords(h, accepted);
      case CallEof => EofRecords(h, accepted);
      case AwaitEof => EofRecords(h, accepted);
      case _ => SubmitRecords(h, accepted);
  }

  lemma RecordsJoin(h: Echo, e: Event, g: Echo, later: seq<Event>, t: Echo)
    requires Records(h, [e], g) && Records(g, later, t)
    ensures Records(h, [e] + later, t)
  {
    hide WriteCancelled, ReadCancelled;
  }

  lemma {:induction false} RunRecords(h: Echo, run: seq<Event>)
    requires EchoInv(h) && CauseInv(h) && Valid(h, run)
    ensures Records(h, run, Run(h, run))
    decreases |run|
  {
    hide EchoInv, CauseInv, Step, Enabled, WriteCancelled, ReadCancelled;
    if run != [] {
      var g := Step(h, run[0]);
      StepRecords(h, run[0]);
      StepKeepsCause(h, run[0]);
      StepKeeps(h, run[0]);
      RunRecords(g, run[1..]);
      RecordsJoin(h, run[0], g, run[1..], Run(g, run[1..]));
      assert [run[0]] + run[1..] == run;
    }
  }

  // ------------------------------------------------------------------------------------ theorems

  lemma NewCauseInv(window: int, eager: bool)
    ensures CauseInv(Start(window, eager))
  {}

  /** The handler leaves its loop only for an error, and every error it meets or reports has its event: a
      clean end of the request END_STREAM, a truncated one a close, a cancelled read or write a
      cancellation, a refused write a close, a refused submit() nghttp2's answer. A cancelled write is
      never passed over. */
  lemma EchoEndsForCause(window: int, eager: bool, run: seq<Event>)
    requires Valid(Start(window, eager), run)
    ensures var h := Run(Start(window, eager), run);
            && (Left(h) ==> h.verdict.Some? || h.failure.Some?)
            && (h.verdict == Some(Eof) ==> Env(OnRead(EndStream)) in run)
            && (h.verdict == Some(StreamTruncated) ==> Env(Close) in run)
            && (h.verdict == Some(Canceled) ==> Env(OnRead(ReadCancel)) in run)
            && (h.failure.Some? ==> h.failure == Some(Canceled) || (h.failure == Some(Eof) && Env(Close) in run))
            && (WriteCancelled(h) <==> Env(OnWrite(WriteCancel)) in run)
            && (h.pc.Ended? ==>
                  match h.pc.how
                  case Refused => Go(false) in run
                  case Through(None) => true
                  case Through(Some(e)) => e == Canceled || (e == Eof && Env(Close) in run))
  {
    hide Valid, Run, StreamInv, CallsInv, Held;
    var start, h := Start(window, eager), Run(Start(window, eager), run);
    NewEchoInv(window, eager);
    NewCauseInv(window, eager);
    ReachedEchoInv(window, eager, run);
    RunKeepsCause(start, run);
    RunRecords(start, run);
  }

  /** What a response is worth. EOF on a response whose handler was not cancelled means that the request
      ended cleanly and that the response is all of it. And a handler that was neither refused, cancelled
      nor closed under ends, if it ends, in success, with exactly that. */
  lemma CleanEchoIsWhole(window: int, eager: bool, run: seq<Event>)
    requires Valid(Start(window, eager), run)
    requires Env(OnRead(ReadCancel)) !in run && Env(OnWrite(WriteCancel)) !in run
    ensures var h := Run(Start(window, eager), run);
            && (h.x.wr.eofRaised ==> Env(OnRead(EndStream)) in run && h.x.wr.pulled == h.x.rd.received)
            && (h.pc.Ended? && Go(false) !in run && Env(Close) !in run ==>
                  h.pc == Ended(Through(None)) && h.x.wr.eofRaised)
  {
    hide Valid, Run, StreamInv, CallsInv, BytesInv, EofPulled, EofClosed;
    var start, h := Start(window, eager), Run(Start(window, eager), run);
    NewEchoInv(window, eager);
    NewCauseInv(window, eager);
    RunKeepsCause(start, run);
    EchoEndsForCause(window, eager, run);
    EchoIsComplete(window, eager, run);
    if h.x.wr.eofRaised {
      assert h.failure.None? && h.verdict.Some?;
      assert !h.verdict.value.StreamTruncated? && !h.verdict.value.Canceled?;
    }
    ClosedNeedsClose(start, run);
  }

  lemma {:induction false} ClosedNeedsClose(h: Echo, run: seq<Event>)
    requires Valid(h, run)
    ensures EofClosed(h, run) ==> Env(Close) in run
    decreases |run|
  {
    hide Step, Enabled;
    if run != [] {
      ClosedNeedsClose(Step(h, run[0]), run[1..]);
      assert run == [run[0]] + run[1..];
    }
  }

  // -------------------------------------------------------------------------------- no idle rounds

  /** How many steps the handler can take before something else must happen. */
  function Steps(h: Echo): nat {
    match h.pc
    case Ended(_) => 0
    case AwaitEof => if h.x.wr.s.writeProgress.waiter.Posted? then 1 else 0
    case CallEof => 2
    case Finishing => 3
    case CallWrite(rest) => if rest == [] then 7 else 4
    case GotChunk(chunk) => if chunk == [] then 8 else 5
    case CallRead => 6
    case AwaitRead => if h.x.rd.s.readReady.waiter.Posted? then 6 else 0
    case AwaitWrite(_) => if h.x.wr.s.writeProgress.waiter.Posted? then 8 else 0
    case Starting(_) => 7
  }

  lemma ReadOutcomes(s: ReadState)
    ensures var r := BeginRead(s, BUFFER);
            && (r.outcome.GotBytes? ==> r.outcome.data != [])
            && (r.outcome.ReadSuspended? ==> r.state.readReady.waiter.Waiting?)
    ensures s.sink.Some? && s.readReady.waiter.Posted? ==>
              var r := ResumeRead(s);
              && (r.outcome.GotBytes? ==> r.outcome.data != [])
              && (r.outcome.ReadSuspended? ==> r.state.readReady.waiter.Waiting?)
  {
    hide Drain;
  }

  lemma ReadCounts(h: Echo, accepted: bool)
    requires Enabled(h, Go(accepted)) && (h.pc.CallRead? || h.pc.AwaitRead?)
    ensures Steps(Step(h, Go(accepted))) < Steps(h)
  {
    hide BeginRead, ResumeRead, BeginWrite, ResumeWrite, Submitting;
    ReadOutcomes(h.x.rd.s);
  }

  lemma BeginSuspends(w: WriteWorld, buffers: Buffers, eof: bool)
    requires WriteEnabled(w, WriteBegin(buffers, eof))
    ensures !w.s.closed ==> WriteStep(w, WriteBegin(buffers, eof)).s.writeProgress.waiter.Waiting?
  {
    hide Flatten, Capped;
  }

  lemma WriteCounts(h: Echo, accepted: bool)
    requires Enabled(h, Go(accepted)) && (h.pc.CallWrite? || h.pc.AwaitWrite? || h.pc.CallEof? || h.pc.AwaitEof?)
    ensures Steps(Step(h, Go(accepted))) < Steps(h)
  {
    hide BeginRead, ResumeRead, BeginWrite, ResumeWrite, WriteStep, ReadStep, Capped, Submitting;
    if h.pc.CallWrite? {
      WriteErrors(h.x.wr, [h.pc.rest], false);
      BeginSuspends(h.x.wr, [h.pc.rest], false);
    } else {
      WriteErrors(h.x.wr, [], true);
      if h.pc.CallEof? {
        BeginSuspends(h.x.wr, [], true);
      }
    }
  }

  lemma PlainCounts(h: Echo, accepted: bool)
    requires h.pc.Starting? || h.pc.GotChunk? || h.pc.Finishing?
    ensures Steps(Step(h, Go(accepted))) < Steps(h)
  {
    hide StreamStep, StreamEnabled, BeginRead, ResumeRead, BeginWrite, ResumeWrite;
  }

  lemma GoCounts(h: Echo, accepted: bool)
    requires Enabled(h, Go(accepted))
    ensures Steps(Step(h, Go(accepted))) < Steps(h)
  {
    hide Steps, Step, StreamEnabled;
    match h.pc
    case CallRead => ReadCounts(h, accepted);
    case AwaitRead => ReadCounts(h, accepted);
    case Starting(_) => PlainCounts(h, accepted);
    case GotChunk(_) => PlainCounts(h, accepted);
    case Finishing => PlainCounts(h, accepted);
    case _ => WriteCounts(h, accepted);
  }

  lemma StepsAreFew(h: Echo)
    ensures Steps(h) <= 8
  {}

  function Gos(run: seq<Event>): nat {
    if run == [] then 0 else Bit(run[0].Go?) + Gos(run[1..])
  }

  /** The handler never goes round on its own: it takes at most eight steps for each thing that happens to
      the stream, and eight more. */
  lemma {:induction false} EchoNeverSpins(h: Echo, run: seq<Event>)
    requires Valid(h, run)
    ensures Gos(run) + Steps(Run(h, run)) <= 8 + 8 * (|run| - Gos(run))
    ensures Gos(run) + Steps(Run(h, run)) <= Steps(h) + 8 * (|run| - Gos(run))
    decreases |run|
  {
    hide Step, Enabled, Steps;
    StepsAreFew(h);
    if run != [] {
      if run[0].Go? {
        GoCounts(h, run[0].accepted);
      }
      StepsAreFew(Step(h, run[0]));
      EchoNeverSpins(Step(h, run[0]), run[1..]);
    }
  }

  // ------------------------------------------------------------------------------------ submission

  /** Before the first byte is echoed the response is submitted only if it is to be submitted eagerly; a
      chunk to write and the end of the body always find it submitted. */
  ghost predicate SubmitInv(h: Echo, eager: bool) {
    && (h.pc.Starting? ==> h.pc.eager == eager && !h.submitted && h.x.wr.pulled == [])
    && (h.pc.GotChunk? ==> h.pc.chunk != [])
    && (h.pc.CallWrite? || h.pc.AwaitWrite? ==> h.x.rd.returned != [])
    && (h.pc.CallRead? || h.pc.AwaitRead? || h.pc.GotChunk? || (h.pc.Finishing? && h.failure.None?) ==>
          (h.submitted <==> eager || h.x.wr.pulled != []))
    && (h.pc.CallWrite? || h.pc.AwaitWrite? || h.failure.Some? || h.pc.CallEof? || h.pc.AwaitEof? ==> h.submitted)
    && (h.pc.Ended? && h.pc.how.Through? ==> h.submitted)
    && (h.submitted ==> !h.x.wr.provider.Unsubmitted? || h.x.wr.s.closed)
  }

  /** What a stream event leaves alone. */
  ghost predicate Untouched(x: Stream, y: Stream) {
    && (x.wr.s.closed ==> y.wr.s.closed)
    && (!x.wr.provider.Unsubmitted? ==> !y.wr.provider.Unsubmitted?)
  }

  lemma StaysSubmitted(x: Stream, e: StreamEvent)
    requires StreamInv(x) && StreamEnabled(x, e)
    ensures Untouched(x, StreamStep(x, e))
  {
    hide StreamInv, Flatten, Capped, Gather, DropBytes, ReadStep;
  }

  lemma OnlyPullsPull(x: Stream, e: StreamEvent)
    requires StreamInv(x) && StreamEnabled(x, e)
    ensures e.OnRead? || !InFlight(x.wr.s) ==> StreamStep(x, e).wr.pulled == x.wr.pulled
    ensures e.OnWrite? ==> StreamStep(x, e).rd.returned == x.rd.returned
  {
    hide ReadInv, ReadStep, Flatten, Capped;
    if e.OnWrite? && e.w.Pull? && !InFlight(x.wr.s) {
      assert !x.wr.s.writePending;
    }
  }

  lemma EnvReturnsNothing(x: Stream, e: StreamEvent)
    requires StreamEnabled(x, e) && Foreign(e)
    ensures StreamStep(x, e).rd.returned == x.rd.returned
  {
    hide WriteStep, Drain;
  }

  lemma EnvKeepsSubmit(h: Echo, e: StreamEvent, eager: bool)
    requires EchoInv(h) && SubmitInv(h, eager) && Enabled(h, Env(e))
    ensures SubmitInv(Step(h, Env(e)), eager)
  {
    hide StreamInv, BytesInv, StreamStep, StreamEnabled;
    StaysSubmitted(h.x, e);
    OnlyPullsPull(h.x, e);
    EnvReturnsNothing(h.x, e);
  }

  lemma ReadKeepsSubmit(h: Echo, accepted: bool, eager: bool)
    requires EchoInv(h) && CauseInv(h) && SubmitInv(h, eager) && Enabled(h, Go(accepted))
    requires h.pc.CallRead? || h.pc.AwaitRead?
    ensures SubmitInv(Step(h, Go(accepted)), eager)
  {
    hide StreamInv, CallsInv, BytesInv, StreamStep, BeginRead, ResumeRead, BeginWrite, ResumeWrite, Submitting;
    var e := if h.pc.CallRead? then OnRead(ReadBegin(BUFFER)) else OnRead(ReadResume);
    StaysSubmitted(h.x, e);
    OnlyPullsPull(h.x, e);
    ReadOutcomes(h.x.rd.s);
  }

  lemma WriteKeepsSubmit(h: Echo, accepted: bool, eager: bool)
    requires EchoInv(h) && SubmitInv(h, eager) && Enabled(h, Go(accepted))
    requires h.pc.CallWrite? || h.pc.AwaitWrite?
    ensures SubmitInv(Step(h, Go(accepted)), eager)
  {
    hide StreamInv, CallsInv, StreamStep, BeginRead, ResumeRead, BeginWrite, ResumeWrite, Submitting, Capped, Over;
    WriteErrors(h.x.wr, [h.pc.rest], false);
    if h.pc.AwaitWrite? {
      StaysSubmitted(h.x, OnWrite(WriteResume));
      OnlyPullsPull(h.x, OnWrite(WriteResume));
    } else if h.pc.rest != [] {
      StaysSubmitted(h.x, OnWrite(WriteBegin([h.pc.rest], false)));
      OnlyPullsPull(h.x, OnWrite(WriteBegin([h.pc.rest], false)));
    } else {
      assert h.x.wr.pulled + [] == h.x.wr.pulled;
    }
  }

  lemma EofKeepsSubmit(h: Echo, accepted: bool, eager: bool)
    requires EchoInv(h) && SubmitInv(h, eager) && Enabled(h, Go(accepted)) && (h.pc.CallEof? || h.pc.AwaitEof?)
    ensures SubmitInv(Step(h, Go(accepted)), eager)
  {
    hide StreamInv, CallsInv, BytesInv, StreamStep, BeginRead, ResumeRead, BeginWrite, ResumeWrite, Submitting, Capped;
    WriteErrors(h.x.wr, [], true);
    StaysSubmitted(h.x, if h.pc.CallEof? then OnWrite(WriteBegin([], true)) else OnWrite(WriteResume));
  }

  lemma SubmitTakesEffect(x: Stream)
    requires StreamInv(x)
    ensures var e := OnWrite(Submit(false));
            var y := if StreamEnabled(x, e) then StreamStep(x, e) else x;
            && (!y.wr.provider.Unsubmitted? || y.wr.s.closed)
            && y.wr.pulled == x.wr.pulled && y.rd.returned == x.rd.returned
  {
    hide StreamInv;
  }

  lemma PlainKeepsSubmit(h: Echo, accepted: bool, eager: bool)
    requires EchoInv(h) && CauseInv(h) && SubmitInv(h, eager) && (h.pc.Starting? || h.pc.GotChunk? || h.pc.Finishing?)
    ensures SubmitInv(Step(h, Go(accepted)), eager)
  {
    hide StreamInv, CallsInv, StreamStep, StreamEnabled, BeginRead, ResumeRead, BeginWrite, ResumeWrite, Over;
    SubmitTakesEffect(h.x);
    if h.pc.GotChunk? {
      assert |h.x.rd.returned| == |h.x.wr.pulled| + |h.pc.chunk|;
    }
  }

  lemma StepKeepsSubmit(h: Echo, e: Event, eager: bool)
    requires EchoInv(h) && CauseInv(h) && SubmitInv(h, eager) && Enabled(h, e)
    ensures SubmitInv(Step(h, e), eager)
  {
    hide EchoInv, CauseInv, SubmitInv, Step;
    match e
    case Env(f) => EnvKeepsSubmit(h, f, eager);
    case Go(accepted) =>
      match h.pc
      case CallRead => ReadKeepsSubmit(h, accepted, eager);
      case AwaitRead => ReadKeepsSubmit(h, accepted, eager);
      case CallWrite(_) => WriteKeepsSubmit(h, accepted, eager);
      case AwaitWrite(_) => WriteKeepsSubmit(h, accepted, eager);
      case CallEof => EofKeepsSubmit(h, accepted, eager);
      case AwaitEof => EofKeepsSubmit(h, accepted, eager);
      case _ => PlainKeepsSubmit(h, accepted, eager);
  }

  lemma {:induction false} RunKeepsSubmit(h: Echo, run: seq<Event>, eager: bool)
    requires EchoInv(h) && CauseInv(h) && SubmitInv(h, eager) && Valid(h, run)
    ensures SubmitInv(Run(h, run), eager)
    decreases |run|
  {
    hide EchoInv, CauseInv, SubmitInv, Step, Enabled;
    if run != [] {
      StepKeepsSubmit(h, run[0], eager);
      StepKeepsCause(h, run[0]);
      StepKeeps(h, run[0]);
      RunKeepsSubmit(Step(h, run[0]), run[1..], eager);
    }
  }

  /** The response is submitted in time: eagerly, before the first read, if the request asks for it, and else
      with the first chunk or at the end; never later than the first byte, and once submitted it is with
      nghttp2 as long as the stream is open. */
  lemma EchoSubmitsOnTime(window: int, eager: bool, run: seq<Event>)
    requires Valid(Start(window, eager), run)
    ensures SubmitInv(Run(Start(window, eager), run), eager)
  {
    hide Valid, Run, EchoInv, CauseInv;
    var start := Start(window, eager);
    NewEchoInv(window, eager);
    NewCauseInv(window, eager);
    assert start.x.wr.pulled == [];
    RunKeepsSubmit(start, run, eager);
  }
}
