/** The echo handler: one loop over both halves of a stream. Each Go event is one stretch of the
    handler between calls; anything else that can happen to the stream may come in between. */
module Echo {
  import opened Bytes
  import opened Capy
  import opened ReadSide
  import opened WriteSide
  import opened StatusSide
  import opened StreamWorld
  import opened ReadTheorems

  /** The handler's buffer. */
  const BUFFER: nat := 64 * 1024

  /** submit() was refused, or the final write_eof ended like this. */
  datatype Ending = Refused | Through(error: Option<Error>)

  datatype Pc =
    | Starting(eager: bool) | CallRead | AwaitRead | GotChunk(chunk: seq<byte>)
    | CallWrite(rest: seq<byte>) | AwaitWrite(rest: seq<byte>)
    | Finishing | CallEof | AwaitEof | Ended(how: Ending)

  /** `verdict` is the error that ended the reading, `failure` that of a write, which left `lost` unsent. */
  datatype Echo = Echo(x: Stream, pc: Pc, submitted: bool, verdict: Option<Error>, failure: Option<Error>,
                       lost: seq<byte>)

  function Start(window: int, eager: bool): Echo {
    Echo(NewStream(window), Starting(eager), false, None, None, [])
  }

  /** `accepted` is nghttp2's answer if the stretch calls submit(), and means nothing otherwise. */
  datatype Event = Go(accepted: bool) | Env(e: StreamEvent)

  /** The handler alone reads, writes and submits. */
  predicate Foreign(e: StreamEvent) {
    match e
    case OnRead(r) => !r.ReadBegin? && !r.ReadResume?
    case OnWrite(w) => !w.WriteBegin? && !w.WriteResume? && !w.Submit?
    case _ => true
  }

  predicate Enabled(h: Echo, e: Event) {
    match e
    case Env(f) => Foreign(f) && StreamEnabled(h.x, f)
    case Go(_) =>
      match h.pc
      case CallRead => StreamEnabled(h.x, OnRead(ReadBegin(BUFFER)))
      case AwaitRead => StreamEnabled(h.x, OnRead(ReadResume))
      case CallWrite(_) => StreamEnabled(h.x, OnWrite(WriteBegin([], false)))
      case CallEof => StreamEnabled(h.x, OnWrite(WriteBegin([], true)))
      case AwaitWrite(_) => StreamEnabled(h.x, OnWrite(WriteResume))
      case AwaitEof => StreamEnabled(h.x, OnWrite(WriteResume))
      case Ended(_) => false
      case _ => true
  }

  /** response.submit(). An answer that accepts a response for a stream that is gone has no effect. */
  function Submitting(h: Echo, accepted: bool, next: Pc, otherwise: Echo): Echo {
    if !accepted then otherwise.(pc := Ended(Refused))
    else
      var e := OnWrite(Submit(false));
      h.(x := if StreamEnabled(h.x, e) then StreamStep(h.x, e) else h.x, submitted := true, pc := next)
  }

  function AfterRead(h: Echo, outcome: ReadOutcome): Echo {
    match outcome
    case GotBytes(data) => h.(pc := GotChunk(data))
    case ReadFailed(error) => h.(pc := Finishing, verdict := Some(error))
    case ReadSuspended => h.(pc := AwaitRead)
  }

  function AfterWrite(h: Echo, rest: seq<byte>, outcome: WriteOutcome): Echo {
    match outcome
    case WriteSuspended => h.(pc := AwaitWrite(rest))
    case WriteDone(error, n) =>
      var left := rest[Min(n, |rest|)..];
      if error.Some? then h.(pc := Finishing, lost := left, failure := error) else h.(pc := CallWrite(left))
  }

  function AfterEof(h: Echo, outcome: WriteOutcome): Echo {
    match outcome
    case WriteSuspended => h.(pc := AwaitEof)
    case WriteDone(error, _) => h.(pc := Ended(Through(error)))
  }

  function Step(h: Echo, e: Event): Echo
    requires Enabled(h, e)
  {
    match e
    case Env(f) => h.(x := StreamStep(h.x, f))
    case Go(accepted) =>
      match h.pc
      case Starting(eager) => if eager then Submitting(h, accepted, CallRead, h) else h.(pc := CallRead)
      case CallRead =>
        AfterRead(h.(x := StreamStep(h.x, OnRead(ReadBegin(BUFFER)))), BeginRead(h.x.rd.s, BUFFER).outcome)
      case AwaitRead =>
        AfterRead(h.(x := StreamStep(h.x, OnRead(ReadResume))), ResumeRead(h.x.rd.s).outcome)
      case GotChunk(chunk) =>
        if h.submitted then h.(pc := CallWrite(chunk)) else Submitting(h, accepted, CallWrite(chunk), h.(lost := chunk))
      case CallWrite(rest) =>
        if rest == [] then h.(pc := CallRead)
        else AfterWrite(h.(x := StreamStep(h.x, OnWrite(WriteBegin([rest], false)))), rest,
                        BeginWrite(h.x.wr.s, Capped([rest]), false).outcome)
      case AwaitWrite(rest) =>
        AfterWrite(h.(x := StreamStep(h.x, OnWrite(WriteResume))), rest, ResumeWrite(h.x.wr.s).outcome)
      case Finishing => if h.submitted then h.(pc := CallEof) else Submitting(h, accepted, CallEof, h)
      case CallEof =>
        AfterEof(h.(x := StreamStep(h.x, OnWrite(WriteBegin([], true)))), BeginWrite(h.x.wr.s, Capped([]), true).outcome)
      case AwaitEof => AfterEof(h.(x := StreamStep(h.x, OnWrite(WriteResume))), ResumeWrite(h.x.wr.s).outcome)
  }

  predicate Valid(h: Echo, run: seq<Event>)
    decreases |run|
  {
    run == [] || (Enabled(h, run[0]) && Valid(Step(h, run[0]), run[1..]))
  }

  function Run(h: Echo, run: seq<Event>): Echo
    requires Valid(h, run)
    decreases |run|
  {
    if run == [] then h else Run(Step(h, run[0]), run[1..])
  }

  // --------------------------------------------------------------------------------- invariant

  /** Bytes the handler has read that nghttp2 has not pulled. */
  function Held(h: Echo): seq<byte> {
    match h.pc
    case GotChunk(chunk) => chunk
    case CallWrite(rest) => rest
    case AwaitWrite(rest) => rest[Min(h.x.wr.s.writeOffset, |rest|)..]
    case _ => h.lost
  }

  ghost predicate CallsInv(h: Echo) {
    && (InFlight(h.x.wr.s) <==> h.pc.AwaitWrite? || h.pc.AwaitEof?)
    && (h.pc.AwaitWrite? ==> h.x.wr.s.pending == [h.pc.rest] && !h.x.wr.s.writeEofRequested)
    && (h.pc.AwaitEof? ==> h.x.wr.s.pending == [] && h.x.wr.s.writeEofRequested)
    && (h.x.rd.s.sink.Some? <==> h.pc.AwaitRead?)
    && (h.pc.AwaitRead? ==> h.x.rd.s.sink.value.capacity == BUFFER)
  }

  predicate Reading(pc: Pc) {
    pc.Starting? || pc.CallRead? || pc.AwaitRead? || pc.GotChunk? || pc.CallWrite? || pc.AwaitWrite?
  }

  ghost predicate BytesInv(h: Echo) {
    && h.x.wr.pulled + Held(h) == h.x.rd.returned
    && |Held(h)| <= BUFFER
    && (Reading(h.pc) ==> h.lost == [] && h.verdict.None?)
    && (h.verdict.Some? ==> h.lost == [])
    && (h.verdict == Some(Eof) ==> Over(h.x.rd.s) && h.x.rd.s.readEof)
    && (h.x.wr.eofRaised ==> h.pc.AwaitEof? || h.pc.Ended?)
    && (h.pc == Ended(Through(None)) ==> h.x.wr.eofRaised || h.x.Closed())
  }

  ghost predicate EchoInv(h: Echo) {
    StreamInv(h.x) && CallsInv(h) && BytesInv(h)
  }

  lemma SubmittingKeeps(h: Echo, accepted: bool, next: Pc, otherwise: Echo)
    requires EchoInv(h) && (h.pc.Starting? || h.pc.GotChunk? || h.pc.Finishing?)
    requires next == match h.pc case Starting(_) => CallRead case GotChunk(c) => CallWrite(c) case _ => CallEof
    requires otherwise == if h.pc.GotChunk? then h.(lost := h.pc.chunk) else h
    ensures EchoInv(Submitting(h, accepted, next, otherwise))
  {
    hide StreamInv, Over;
    if StreamEnabled(h.x, OnWrite(Submit(false))) {
      StepKeepsStreamInv(h.x, OnWrite(Submit(false)));
    }
  }

  /** What a read half leaves behind: a sink exactly when it suspends, and after `eof` an empty queue. */
  ghost predicate ReadShape(s: ReadState, r: ReadReaction) {
    && ReadStateInv(r.state) && Serves(Backlog(s), BUFFER, r.outcome, Backlog(r.state))
    && (if r.outcome.ReadSuspended? then r.state.sink.Some? && r.state.sink.value.capacity == BUFFER
        else r.state.sink.None?)
    && (r.outcome == ReadFailed(Eof) ==> r.state.readEof && r.state.chunks == [])
  }

  lemma BeginShape(s: ReadState)
    requires ReadStateInv(s) && s.readReady.waiter.Nobody?
    ensures ReadShape(s, BeginRead(s, BUFFER))
  {
    hide Queued, Drain, QueueShape;
    BeginReadTakes(s, BUFFER);
    var r := BeginRead(s, BUFFER);
    QueueHasBytes(r.state.chunks, r.state.frontOffset);
  }

  lemma ResumeShape(s: ReadState)
    requires ReadStateInv(s) && s.readReady.waiter.Posted? && s.sink.Some? && s.sink.value.capacity == BUFFER
    ensures ReadShape(s, ResumeRead(s))
  {
    ResumeReadTakes(s);
  }

  lemma AfterReadKeeps(h: Echo, r: ReadReaction, g: Echo)
    requires EchoInv(h) && (h.pc.CallRead? || h.pc.AwaitRead?) && ReadShape(h.x.rd.s, r)
    requires StreamInv(g.x) && g == AfterRead(h.(x := h.x.(rd := Returned(h.x.rd, r))), r.outcome)
    ensures EchoInv(g)
  {
    hide StreamInv, Backlog;
    assert h.x.wr.pulled + [] == h.x.wr.pulled;
  }

  lemma CallReadKeeps(h: Echo, accepted: bool)
    requires EchoInv(h) && h.pc.CallRead? && Enabled(h, Go(accepted))
    ensures EchoInv(Step(h, Go(accepted)))
  {
    StepKeepsStreamInv(h.x, OnRead(ReadBegin(BUFFER)));
    BeginShape(h.x.rd.s);
    hide StreamInv, CallsInv, BytesInv, BeginRead, ReadShape, Returned, AfterRead;
    AfterReadKeeps(h, BeginRead(h.x.rd.s, BUFFER), Step(h, Go(accepted)));
  }

  lemma AwaitReadKeeps(h: Echo, accepted: bool)
    requires EchoInv(h) && h.pc.AwaitRead? && Enabled(h, Go(accepted))
    ensures EchoInv(Step(h, Go(accepted)))
  {
    StepKeepsStreamInv(h.x, OnRead(ReadResume));
    ResumeShape(h.x.rd.s);
    hide StreamInv, CallsInv, BytesInv, ResumeRead, ReadShape, Returned, AfterRead;
    AfterReadKeeps(h, ResumeRead(h.x.rd.s), Step(h, Go(accepted)));
  }

  lemma CallWriteKeeps(h: Echo, accepted: bool)
    requires EchoInv(h) && h.pc.CallWrite? && Enabled(h, Go(accepted))
    ensures EchoInv(Step(h, Go(accepted)))
  {
    hide StreamInv, Over, BeginRead, ResumeRead, ResumeWrite, Submitting, AfterRead, AfterEof;
    var rest := h.pc.rest;
    if rest != [] {
      StepKeepsStreamInv(h.x, OnWrite(WriteBegin([rest], false)));
      assert rest[0..] == rest;
    }
  }

  /** The handler's write in flight, as the write side records it. */
  lemma AwaitWriteFacts(h: Echo)
    requires EchoInv(h) && h.pc.AwaitWrite?
    ensures h.x.wr.s.writeOffset <= |h.pc.rest|
    ensures Flatten(h.x.wr.s.pending) == h.pc.rest
  {
    FlattenOne(h.pc.rest);
    assert CursorInv(h.x.wr.s);
  }

  lemma AwaitWriteKeeps(h: Echo, accepted: bool)
    requires EchoInv(h) && h.pc.AwaitWrite? && Enabled(h, Go(accepted))
    ensures EchoInv(Step(h, Go(accepted)))
  {
    hide StreamInv, Over, Flatten, BeginRead, ResumeRead, BeginWrite, Capped, Submitting, AfterRead, AfterEof;
    StepKeepsStreamInv(h.x, OnWrite(WriteResume));
    AwaitWriteFacts(h);
  }

  lemma CallEofKeeps(h: Echo, accepted: bool)
    requires EchoInv(h) && h.pc.CallEof? && Enabled(h, Go(accepted))
    ensures EchoInv(Step(h, Go(accepted)))
  {
    hide StreamInv, Over, Flatten, BeginRead, ResumeRead, ResumeWrite, Submitting, AfterRead, AfterWrite;
    StepKeepsStreamInv(h.x, OnWrite(WriteBegin([], true)));
  }

  lemma AwaitEofKeeps(h: Echo, accepted: bool)
    requires EchoInv(h) && h.pc.AwaitEof? && Enabled(h, Go(accepted))
    ensures EchoInv(Step(h, Go(accepted)))
  {
    hide StreamInv, Over, Flatten, BeginRead, ResumeRead, BeginWrite, Capped, Submitting, AfterRead, AfterWrite;
    StepKeepsStreamInv(h.x, OnWrite(WriteResume));
    if h.x.wr.s.writeProgress.waiter.ok {
      Sides(h.x);
      RaisedOrClosed(h.x.wr);
      SidesCloseTogether(h.x);
    }
  }

  /** A pull takes from what the handler holds, if anything is in flight. */
  lemma PullTakesHeld(h: Echo, length: nat)
    requires EchoInv(h) && WriteEnabled(h.x.wr, Pull(length))
    ensures var g := h.(x := h.x.(wr := WriteStep(h.x.wr, Pull(length))));
            g.x.wr.pulled + Held(g) == h.x.wr.pulled + Held(h) && |Held(g)| <= |Held(h)|
  {
    hide StreamInv, ReadInv, WriteInv, WriteStep, WriteEnabled, Over, Flatten, Progress, Moved, CursorInv, BytesInv;
    Sides(h.x);
    WriteInvParts(h.x.wr);
    PullEffect(h.x.wr, length);
    var v, data := WriteStep(h.x.wr, Pull(length)), Moved(h.x.wr.s, length);
    if h.pc.AwaitWrite? {
      AwaitWriteFacts(h);
      HeldShrinks(h.pc.rest, h.x.wr.s.writeOffset, v.s.writeOffset, data, h.x.wr.s, v.s);
      Assoc(h.x.wr.pulled, data, h.pc.rest[v.s.writeOffset..]);
    } else {
      NoProgress(h.x.wr.s);
      NoProgress(v.s);
      assert data == [] && h.x.wr.pulled + [] == h.x.wr.pulled;
    }
  }

  lemma HeldShrinks(rest: seq<byte>, i: nat, j: nat, data: seq<byte>, s: WriteState, t: WriteState)
    requires i <= j == i + |data| <= |rest| && Flatten(s.pending) == rest && t.pending == s.pending
    requires InFlight(s) && InFlight(t) && s.writeOffset == i && t.writeOffset == j
    requires Progress(t) == Progress(s) + data
    ensures rest[i..] == data + rest[j..]
  {
    hide Flatten;
    assert rest[..j] == rest[..i] + data;
    assert data == rest[i..j];
  }

  lemma PullKeeps(h: Echo, length: nat)
    requires EchoInv(h) && Enabled(h, Env(OnWrite(Pull(length))))
    ensures EchoInv(Step(h, Env(OnWrite(Pull(length)))))
  {
    hide StreamInv, ReadInv, WriteInv, WriteStep, Over, Flatten, Held, Progress, Moved, CursorInv, WriteEnabled;
    StepKeepsStreamInv(h.x, OnWrite(Pull(length)));
    PullTakesHeld(h, length);
    Sides(h.x);
    WriteInvParts(h.x.wr);
    PullEffect(h.x.wr, length);
  }

  lemma ReadEnvEffect(w: ReadWorld, e: ReadEvent)
    requires ReadEnabled(w, e) && !e.ReadBegin? && !e.ReadResume?
    ensures var v := ReadStep(w, e);
            && v.returned == w.returned && v.s.sink.Some? == w.s.sink.Some?
            && (v.s.sink.Some? ==> v.s.sink.value.capacity == w.s.sink.value.capacity)
            && (w.s.readEof ==> v.s.readEof)
  {}

  lemma WriteEnvEffect(w: WriteWorld, e: WriteEvent)
    requires WriteEnabled(w, e) && !e.WriteBegin? && !e.WriteResume? && !e.Pull?
    ensures var v := WriteStep(w, e);
            && v.pulled == w.pulled && v.eofRaised == w.eofRaised && InFlight(v.s) == InFlight(w.s)
            && v.s.pending == w.s.pending && v.s.writeEofRequested == w.s.writeEofRequested
            && v.s.writeOffset == w.s.writeOffset
  {}

  lemma ReadEnvKeeps(h: Echo, r: ReadEvent)
    requires EchoInv(h) && Enabled(h, Env(OnRead(r)))
    ensures EchoInv(Step(h, Env(OnRead(r))))
  {
    hide StreamInv, ReadStep, ReadEnabled, Over;
    StepKeepsStreamInv(h.x, OnRead(r));
    ReadEnvEffect(h.x.rd, r);
    ReadStepCloses(h.x.rd, r);
    if Over(h.x.rd.s) {
      OverStaysOver(h.x.rd, r);
    }
  }

  lemma WriteEnvKeeps(h: Echo, w: WriteEvent)
    requires EchoInv(h) && Enabled(h, Env(OnWrite(w))) && !w.Pull?
    ensures EchoInv(Step(h, Env(OnWrite(w))))
  {
    hide StreamInv, WriteStep, WriteEnabled, Over;
    StepKeepsStreamInv(h.x, OnWrite(w));
    WriteEnvEffect(h.x.wr, w);
  }

  lemma CloseKeeps(h: Echo)
    requires EchoInv(h) && Enabled(h, Env(Close))
    ensures EchoInv(Step(h, Env(Close)))
  {
    hide StreamInv, ReadStep, WriteStep, Over;
    StepKeepsStreamInv(h.x, Close);
    ReadEnvEffect(h.x.rd, ReadClose);
    ReadStepCloses(h.x.rd, ReadClose);
    WriteEnvEffect(h.x.wr, WriteClose);
    if Over(h.x.rd.s) {
      OverStaysOver(h.x.rd, ReadClose);
    }
  }

  lemma StatusEnvKeeps(h: Echo, s: StatusEvent)
    requires EchoInv(h) && Enabled(h, Env(OnStatus(s)))
    ensures EchoInv(Step(h, Env(OnStatus(s))))
  {
    hide StreamInv, Over, StatusStep, StatusEnabled;
    StepKeepsStreamInv(h.x, OnStatus(s));
  }

  lemma EnvKeeps(h: Echo, e: StreamEvent)
    requires EchoInv(h) && Enabled(h, Env(e))
    ensures EchoInv(Step(h, Env(e)))
  {
    hide EchoInv, Step, Enabled;
    match e
    case OnRead(r) => ReadEnvKeeps(h, r);
    case OnWrite(w) =>
      if w.Pull? {
        PullKeeps(h, w.length);
      } else {
        WriteEnvKeeps(h, w);
      }
    case OnStatus(s) => StatusEnvKeeps(h, s);
    case Close => CloseKeeps(h);
  }

  /** The steps in which the handler calls nothing but perhaps submit(). */
  lemma PlainKeeps(h: Echo, accepted: bool)
    requires EchoInv(h) && (h.pc.Starting? || h.pc.GotChunk? || h.pc.Finishing?)
    ensures EchoInv(Step(h, Go(accepted)))
  {
    hide StreamInv, Over, Submitting, StreamStep, StreamEnabled, AfterRead, AfterWrite, AfterEof;
    match h.pc
    case Starting(_) => SubmittingKeeps(h, accepted, CallRead, h);
    case GotChunk(chunk) => SubmittingKeeps(h, accepted, CallWrite(chunk), h.(lost := chunk));
    case Finishing => SubmittingKeeps(h, accepted, CallEof, h);
  }

  lemma StepKeeps(h: Echo, e: Event)
    requires EchoInv(h) && Enabled(h, e)
    ensures EchoInv(Step(h, e))
  {
    hide EchoInv, Step;
    match e
    case Env(f) => EnvKeeps(h, f);
    case Go(accepted) =>
      match h.pc
      case CallRead => CallReadKeeps(h, accepted);
      case AwaitRead => AwaitReadKeeps(h, accepted);
      case CallWrite(_) => CallWriteKeeps(h, accepted);
      case AwaitWrite(_) => AwaitWriteKeeps(h, accepted);
      case CallEof => CallEofKeeps(h, accepted);
      case AwaitEof => AwaitEofKeeps(h, accepted);
      case _ => PlainKeeps(h, accepted);
  }

  lemma {:induction false} RunKeeps(h: Echo, run: seq<Event>)
    requires EchoInv(h) && Valid(h, run)
    ensures EchoInv(Run(h, run))
    decreases |run|
  {
    hide EchoInv, Step, Enabled;
    if run != [] {
      StepKeeps(h, run[0]);
      RunKeeps(Step(h, run[0]), run[1..]);
    }
  }

  // ---------------------------------------------------------------------------------- theorems

  lemma ReachedEchoInv(window: int, eager: bool, run: seq<Event>)
    requires Valid(Start(window, eager), run)
    ensures EchoInv(Run(Start(window, eager), run))
  {
    hide EchoInv, Valid, Run;
    NewEchoInv(window, eager);
    RunKeeps(Start(window, eager), run);
  }

  lemma NewEchoInv(window: int, eager: bool)
    ensures EchoInv(Start(window, eager))
  {
    hide StreamInv, ReadReached, WriteReached, Over;
    NewStreamReachable(window);
    var none: seq<byte> := [];
    assert none + none == none;
  }

  /** The response never runs ahead of the request, never differs from it, and never falls behind by
      more than the stream window and the handler's buffer, whatever happens to either half. */
  lemma EchoIsFaithful(window: int, eager: bool, run: seq<Event>)
    requires Valid(Start(window, eager), run)
    ensures var x := Run(Start(window, eager), run).x;
            && x.wr.pulled <= x.rd.received
            && |x.rd.received| - |x.wr.pulled| <= WINDOW_SIZE + BUFFER
  {
    hide Valid, Run, StreamInv, Backlog, ReadStateInv, WriteInv, Over, CallsInv;
    ReachedEchoInv(window, eager, run);
    var h := Run(Start(window, eager), run);
    Sides(h.x);
    Assoc(h.x.wr.pulled, Held(h), Backlog(h.x.rd.s));
  }

  /** nghttp2 pulls while the handler's final write_eof is suspended. */
  predicate EofPulled(h: Echo, run: seq<Event>)
    requires Valid(h, run)
    decreases |run|
  {
    run != [] && ((h.pc.AwaitEof? && IsPull(run[0])) || EofPulled(Step(h, run[0]), run[1..]))
  }

  /** The stream is closed while it is. */
  predicate EofClosed(h: Echo, run: seq<Event>)
    requires Valid(h, run)
    decreases |run|
  {
    run != [] && ((h.pc.AwaitEof? && run[0] == Env(Close)) || EofClosed(Step(h, run[0]), run[1..]))
  }

  predicate IsPull(e: Event) {
    e.Env? && e.e.OnWrite? && e.e.w.Pull?
  }

  lemma EofEnvStep(h: Echo, e: StreamEvent)
    requires StreamInv(h.x) && CallsInv(h) && Enabled(h, Env(e))
    ensures StreamStep(h.x, e).wr.eofRaised <==> h.x.wr.eofRaised || (h.pc.AwaitEof? && IsPull(Env(e)))
  {
    hide StreamInv, ReadInv, WriteInv, WriteStep, ReadStep, WriteEnabled, Flatten;
    Sides(h.x);
    match e
    case OnWrite(w) =>
      EofRaisedBy(h.x.wr, w);
      WriteInvParts(h.x.wr);
      assert h.pc.AwaitEof? ==> Flatten(h.x.wr.s.pending) == [] by { FlattenNone(); }
    case Close =>
      Closable(h.x);
      EofRaisedBy(h.x.wr, WriteClose);
    case _ =>
  }

  lemma Closable(x: Stream)
    requires StreamEnabled(x, Close)
    ensures WriteEnabled(x.wr, WriteClose)
  {}

  /** No write half, and no submit(), raises EOF. */
  lemma HalfRaisesNothing(x: Stream, e: StreamEvent)
    requires StreamInv(x) && StreamEnabled(x, e) && !e.Close? && !(e.OnWrite? && e.w.Pull?)
    ensures StreamStep(x, e).wr.eofRaised == x.wr.eofRaised
  {
    hide StreamInv, ReadInv, WriteInv, WriteStep, ReadStep, WriteEnabled, Flatten;
    Sides(x);
    if e.OnWrite? {
      EofRaisedBy(x.wr, e.w);
    }
  }

  lemma EofStep(h: Echo, e: Event)
    requires StreamInv(h.x) && CallsInv(h) && Enabled(h, e)
    ensures Step(h, e).x.wr.eofRaised <==> h.x.wr.eofRaised || (h.pc.AwaitEof? && IsPull(e))
  {
    hide StreamInv, CallsInv, StreamStep, BeginRead, ResumeRead, BeginWrite, ResumeWrite, Capped;
    match e
    case Env(f) => EofEnvStep(h, f);
    case Go(_) =>
      match h.pc
      case CallRead => HalfRaisesNothing(h.x, OnRead(ReadBegin(BUFFER)));
      case AwaitRead => HalfRaisesNothing(h.x, OnRead(ReadResume));
      case CallWrite(rest) => HalfRaisesNothing(h.x, OnWrite(WriteBegin([rest], false)));
      case CallEof => HalfRaisesNothing(h.x, OnWrite(WriteBegin([], true)));
      case AwaitWrite(_) => HalfRaisesNothing(h.x, OnWrite(WriteResume));
      case AwaitEof => HalfRaisesNothing(h.x, OnWrite(WriteResume));
      case _ =>
        if StreamEnabled(h.x, OnWrite(Submit(false))) {
          HalfRaisesNothing(h.x, OnWrite(Submit(false)));
        }
  }

  lemma {:induction false} EofRaisedExactly(h: Echo, run: seq<Event>)
    requires EchoInv(h) && Valid(h, run)
    ensures Run(h, run).x.wr.eofRaised <==> h.x.wr.eofRaised || EofPulled(h, run)
    decreases |run|
  {
    hide StreamInv, CallsInv, BytesInv, Step, Enabled, IsPull;
    if run != [] {
      EofStep(h, run[0]);
      StepKeeps(h, run[0]);
      EofRaisedExactly(Step(h, run[0]), run[1..]);
    }
  }

  /** The handler has succeeded, or is about to because the stream was closed under it. */
  predicate Succeeding(h: Echo) {
    h.pc == Ended(Through(None)) || (h.pc.AwaitEof? && h.x.wr.s.closed)
  }

  lemma SuccessStep(h: Echo, e: Event)
    requires StreamInv(h.x) && CallsInv(h) && Enabled(h, e) && Succeeding(Step(h, e))
    ensures Succeeding(h) || h.x.wr.eofRaised || (h.pc.AwaitEof? && e == Env(Close))
  {
    hide StreamInv, ReadInv, WriteInv, WriteStep, ReadStep, ReadEnabled, BeginRead, ResumeRead, Capped;
    Sides(h.x);
    RaisedOrClosed(h.x.wr);
    match e
    case Env(f) =>
      if f.OnWrite? {
        WriteStepCloses(h.x.wr, f.w);
      }
    case Go(_) =>
      if h.pc.CallEof? {
        BeginsOpen(h.x.wr);
      }
  }

  lemma BeginsOpen(w: WriteWorld)
    requires WriteEnabled(w, WriteBegin([], true))
    ensures BeginWrite(w.s, Capped([]), true).outcome.WriteSuspended? ==> !WriteStep(w, WriteBegin([], true)).s.closed
  {}

  /** Why the handler succeeds. */
  lemma {:induction false} SuccessHasCause(h: Echo, run: seq<Event>)
    requires EchoInv(h) && Valid(h, run) && Succeeding(Run(h, run))
    ensures Succeeding(h) || h.x.wr.eofRaised || EofPulled(h, run) || EofClosed(h, run)
    decreases |run|
  {
    hide StreamInv, CallsInv, BytesInv, Step, Enabled, IsPull, Succeeding;
    if run != [] {
      EofStep(h, run[0]);
      StepKeeps(h, run[0]);
      SuccessHasCause(Step(h, run[0]), run[1..]);
      if Succeeding(Step(h, run[0])) {
        SuccessStep(h, run[0]);
      }
    }
  }

  /** From the moment the handler has read a clean end of the request, the response is the request, byte
      for byte, whatever becomes of the stream. EOF is raised if and only if nghttp2 pulls while the
      handler's final write_eof is suspended, and a handler that succeeds saw such a pull or a close at
      that place. */
  lemma EchoIsComplete(window: int, eager: bool, run: seq<Event>)
    requires Valid(Start(window, eager), run)
    ensures var start, h := Start(window, eager), Run(Start(window, eager), run);
            && (h.verdict == Some(Eof) ==> h.x.wr.pulled == h.x.rd.received)
            && (h.x.wr.eofRaised <==> EofPulled(start, run))
            && (h.pc == Ended(Through(None)) ==> EofPulled(start, run) || EofClosed(start, run))
  {
    hide Valid, Run, StreamInv, ReadStateInv, WriteInv, CallsInv, EofPulled, EofClosed;
    var start, h := Start(window, eager), Run(Start(window, eager), run);
    ReachedEchoInv(window, eager, run);
    NewEchoInv(window, eager);
    EofRaisedExactly(start, run);
    if h.pc == Ended(Through(None)) {
      SuccessHasCause(start, run);
    }
    if h.verdict == Some(Eof) {
      Sides(h.x);
      assert Backlog(h.x.rd.s) == [];
      assert h.x.wr.pulled + [] == h.x.wr.pulled && h.x.rd.returned + [] == h.x.rd.returned;
    }
  }

  lemma SidesCloseTogether(x: Stream)
    requires StreamInv(x)
    ensures x.wr.s.closed == x.Closed()
  {}
}
