/** The public write() and write_eof(): capy's composed write() drains a buffer sequence of any length
    through write_some(), 16 descriptors at a time, and write_eof() then signals the end of the body
    with an empty write_eof_(). */
module Compose {
  import opened Bytes
  import opened Capy
  import opened WriteSide
  import T = WriteTheorems
  import S = StreamWorld

  /** Where the composed call is. */
  datatype Pc = Calling | Awaiting | CallingEof | AwaitingEof | Returned(error: Option<Error>)

  /** `rest` is what the consuming_buffers still hold, `written` the running total, `calls` the number
      of write_some() calls made. */
  datatype Composed = Composed(w: WriteWorld, pc: Pc, rest: Buffers, written: nat, calls: nat, eof: bool)

  function Start(w: WriteWorld, body: Buffers, eof: bool): Composed {
    Composed(w, Calling, body, 0, 0, eof)
  }

  /** Go is the composed call's own next step; Env anything else that may happen to the stream. */
  datatype Event = Go | Env(e: WriteEvent)

  predicate Enabled(c: Composed, e: Event) {
    match e
    case Env(f) => !f.WriteBegin? && !f.WriteResume? && WriteEnabled(c.w, f)
    case Go =>
      match c.pc
      case Calling => c.w.s.writeProgress.waiter.Nobody?
      case CallingEof => c.w.s.writeProgress.waiter.Nobody?
      case Awaiting => c.w.s.writeProgress.waiter.Posted?
      case AwaitingEof => c.w.s.writeProgress.waiter.Posted?
      case Returned(_) => false
  }

  function Call(c: Composed): Composed
    requires c.w.s.writeProgress.waiter.Nobody?
  {
    if Flatten(c.rest) == [] then c.(pc := if c.eof then CallingEof else Returned(None))
    else
      var r := BeginWrite(c.w.s, Capped(c.rest), false);
      c.(w := WriteStep(c.w, WriteBegin(c.rest, false)), calls := c.calls + 1,
         pc := if r.outcome.WriteDone? then Returned(r.outcome.error) else Awaiting)
  }

  function Return(c: Composed): Composed
    requires c.w.s.writeProgress.waiter.Posted?
  {
    var o := ResumeWrite(c.w.s).outcome;
    var n := if o.WriteDone? then o.n else 0;
    c.(w := WriteStep(c.w, WriteResume), rest := DropBytes(c.rest, n), written := c.written + n,
       pc := if o.WriteDone? && o.error.Some? then Returned(o.error) else Calling)
  }

  function CallEof(c: Composed): Composed
    requires c.w.s.writeProgress.waiter.Nobody?
  {
    var r := BeginWrite(c.w.s, Capped([]), true);
    c.(w := WriteStep(c.w, WriteBegin([], true)),
       pc := if r.outcome.WriteDone? then Returned(r.outcome.error) else AwaitingEof)
  }

  function ReturnEof(c: Composed): Composed
    requires c.w.s.writeProgress.waiter.Posted?
  {
    var o := ResumeWrite(c.w.s).outcome;
    c.(w := WriteStep(c.w, WriteResume), pc := Returned(if o.WriteDone? then o.error else None))
  }

  function Step(c: Composed, e: Event): Composed
    requires Enabled(c, e)
  {
    match e
    case Env(f) => c.(w := WriteStep(c.w, f))
    case Go =>
      match c.pc
      case Calling => Call(c)
      case Awaiting => Return(c)
      case CallingEof => CallEof(c)
      case AwaitingEof => ReturnEof(c)
  }

  predicate Valid(c: Composed, run: seq<Event>)
    decreases |run|
  {
    run == [] || (Enabled(c, run[0]) && Valid(Step(c, run[0]), run[1..]))
  }

  function Run(c: Composed, run: seq<Event>): Composed
    requires Valid(c, run)
    decreases |run|
  {
    if run == [] then c else Run(Step(c, run[0]), run[1..])
  }

  // --------------------------------------------------------------------------------- invariant

  /** The stream's write in flight, if any, is this call's, and is a front part of what is left. */
  ghost predicate CallInv(c: Composed) {
    && (InFlight(c.w.s) <==> c.pc.Awaiting? || c.pc.AwaitingEof?)
    && (c.pc.Awaiting? ==> c.w.s.pending == Capped(c.rest) && !c.w.s.writeEofRequested && Flatten(c.rest) != [])
    && (c.pc.AwaitingEof? ==> c.w.s.pending == [] && c.w.s.writeEofRequested)
  }

  /** Counting from the bytes pulled when the call began: exactly the first `written` bytes of the
      body have been pulled and reported, and the progress of the call in flight on top. EOF waits
      until all of them have. */
  ghost predicate BodyInv(c: Composed, before: seq<byte>, body: seq<byte>) {
    && c.written <= |body| && Flatten(c.rest) == body[c.written..]
    && c.w.pulled == before + (body[..c.written] + Progress(c.w.s))
    && (c.w.eofRaised ==> c.eof && c.written == |body|)
    && (c.pc.CallingEof? || c.pc.AwaitingEof? || c.pc == Returned(None) ==> c.written == |body|)
    && (c.pc.CallingEof? || c.pc.AwaitingEof? ==> c.eof)
    && (c.pc == Returned(None) && c.eof ==> c.w.eofRaised || c.w.s.closed)
  }

  ghost predicate ComposedInv(c: Composed, before: seq<byte>, body: seq<byte>) {
    WriteInv(c.w) && CallInv(c) && BodyInv(c, before, body)
  }

  lemma PrefixOfRest(body: seq<byte>, k: nat, part: seq<byte>)
    requires k <= |body| && part <= body[k..]
    ensures body[..k] + part == body[..k + |part|] && body[k..][|part|..] == body[k + |part|..]
  {
    assert part == body[k..][..|part|] == body[k..k + |part|];
  }

  lemma CallKeeps(c: Composed, before: seq<byte>, body: seq<byte>)
    requires ComposedInv(c, before, body) && c.pc.Calling? && Enabled(c, Go)
    ensures ComposedInv(Call(c), before, body)
  {
    hide Flatten, Capped, WriteInv, WriteStep, BeginWrite, Progress;
    if Flatten(c.rest) == [] {
      assert c.written == |body|;
    } else {
      StepKeepsWriteInv(c.w, WriteBegin(c.rest, false));
      BeginEffect(c.w, c.rest, false);
      NoProgress(c.w.s);
    }
  }

  /** Progress in the part that is being written is progress in what is left. */
  lemma ProgressInRest(c: Composed)
    requires WriteInv(c.w) && CallInv(c) && c.pc.Awaiting? && c.w.s.writeProgress.waiter.Posted?
    ensures Progress(c.w.s) <= Flatten(c.rest) && |Progress(c.w.s)| == c.w.s.writeOffset
  {
    hide Flatten, Progress, HandshakeInv, LogInv;
    ResumeEffect(c.w);
  }

  lemma ReturnKeepsBody(c: Composed, before: seq<byte>, body: seq<byte>)
    requires ComposedInv(c, before, body) && c.pc.Awaiting? && Enabled(c, Go)
    ensures BodyInv(Return(c), before, body)
  {
    hide Flatten, Progress, HandshakeInv, LogInv, CursorInv, WriteStep, DropBytes;
    ResumeEffect(c.w);
    ProgressInRest(c);
    PrefixOfRest(body, c.written, Progress(c.w.s));
    var k := c.written + c.w.s.writeOffset;
    assert body[..k] + [] == body[..k];
    assert Flatten(DropBytes(c.rest, c.w.s.writeOffset)) == body[k..];
  }

  lemma ReturnKeeps(c: Composed, before: seq<byte>, body: seq<byte>)
    requires ComposedInv(c, before, body) && c.pc.Awaiting? && Enabled(c, Go)
    ensures ComposedInv(Return(c), before, body)
  {
    hide Flatten, Progress, WriteStep, WriteInv, BodyInv;
    StepKeepsWriteInv(c.w, WriteResume);
    ReturnKeepsBody(c, before, body);
    WriteInvParts(c.w);
    ResumeEffect(c.w);
  }

  lemma EofKeeps(c: Composed, before: seq<byte>, body: seq<byte>)
    requires ComposedInv(c, before, body) && Enabled(c, Go) && (c.pc.CallingEof? || c.pc.AwaitingEof?)
    ensures ComposedInv(Step(c, Go), before, body)
  {
    hide Flatten, WriteInv, CompletedWell, CursorInv;
    WriteInvParts(c.w);
    if c.pc.CallingEof? {
      StepKeepsWriteInv(c.w, WriteBegin([], true));
    } else {
      StepKeepsWriteInv(c.w, WriteResume);
      NoProgress(c.w.s);
    }
    RaisedOrClosed(c.w);
  }

  lemma PullKeeps(c: Composed, before: seq<byte>, body: seq<byte>, length: nat)
    requires ComposedInv(c, before, body) && Enabled(c, Env(Pull(length)))
    ensures ComposedInv(Step(c, Env(Pull(length))), before, body)
  {
    hide Flatten, Progress, WriteStep, WriteInv, Moved, CursorInv, CompletedWell, Produce;
    WriteInvParts(c.w);
    StepKeepsWriteInv(c.w, Pull(length));
    PullEffect(c.w, length);
    var data := Moved(c.w.s, length);
    Assoc(body[..c.written], Progress(c.w.s), data);
    Assoc(before, body[..c.written] + Progress(c.w.s), data);
  }

  lemma OtherKeeps(c: Composed, before: seq<byte>, body: seq<byte>, e: WriteEvent)
    requires ComposedInv(c, before, body) && Enabled(c, Env(e)) && !e.Pull?
    ensures ComposedInv(Step(c, Env(e)), before, body)
  {
    hide WriteInv, Flatten;
    StepKeepsWriteInv(c.w, e);
  }

  lemma StepKeeps(c: Composed, before: seq<byte>, body: seq<byte>, e: Event)
    requires ComposedInv(c, before, body) && Enabled(c, e)
    ensures ComposedInv(Step(c, e), before, body)
  {
    hide ComposedInv, WriteStep, WriteEnabled;
    match e
    case Env(f) =>
      if f.Pull? {
        PullKeeps(c, before, body, f.length);
      } else {
        OtherKeeps(c, before, body, f);
      }
    case Go =>
      match c.pc
      case Calling => CallKeeps(c, before, body);
      case Awaiting => ReturnKeeps(c, before, body);
      case _ => EofKeeps(c, before, body);
  }

  lemma {:induction false} RunKeeps(c: Composed, before: seq<byte>, body: seq<byte>, run: seq<Event>)
    requires ComposedInv(c, before, body) && Valid(c, run)
    ensures ComposedInv(Run(c, run), before, body)
    decreases |run|
  {
    hide ComposedInv, Step, Enabled;
    if run != [] {
      StepKeeps(c, before, body, run[0]);
      RunKeeps(Step(c, run[0]), before, body, run[1..]);
    }
  }

  /** A stream whose body has not ended and that nobody is writing to. */
  ghost predicate Writable(w: WriteWorld) {
    WriteInv(w) && !InFlight(w.s) && !w.eofRaised
  }

  lemma StartKeeps(w: WriteWorld, body: Buffers, eof: bool)
    requires Writable(w)
    ensures ComposedInv(Start(w, body, eof), w.pulled, Flatten(body))
  {
    assert w.pulled + (Flatten(body)[..0] + []) == w.pulled;
  }

  /** nghttp2 pulls while the final, empty write_eof is suspended. */
  predicate EofPulled(c: Composed, run: seq<Event>)
    requires Valid(c, run)
    decreases |run|
  {
    run != [] && ((c.pc.AwaitingEof? && run[0].Env? && run[0].e.Pull?) || EofPulled(Step(c, run[0]), run[1..]))
  }

  /** The stream is closed while it is. */
  predicate EofClosed(c: Composed, run: seq<Event>)
    requires Valid(c, run)
    decreases |run|
  {
    run != [] && ((c.pc.AwaitingEof? && run[0] == Env(WriteClose)) || EofClosed(Step(c, run[0]), run[1..]))
  }

  lemma EofStep(c: Composed, e: Event)
    requires WriteInv(c.w) && CallInv(c) && Enabled(c, e)
    ensures Step(c, e).w.eofRaised <==> c.w.eofRaised || (c.pc.AwaitingEof? && e.Env? && e.e.Pull?)
  {
    hide WriteInv, WriteStep, Flatten, Capped, DropBytes;
    match e
    case Env(f) =>
      EofRaisedBy(c.w, f);
      WriteInvParts(c.w);
      assert c.pc.AwaitingEof? ==> Flatten(c.w.s.pending) == [] by { FlattenNone(); }
    case Go =>
      match c.pc
      case Calling => EofRaisedBy(c.w, WriteBegin(c.rest, false));
      case CallingEof => EofRaisedBy(c.w, WriteBegin([], true));
      case _ => EofRaisedBy(c.w, WriteResume);
  }

  lemma {:induction false} EofRaisedExactly(c: Composed, before: seq<byte>, body: seq<byte>, run: seq<Event>)
    requires ComposedInv(c, before, body) && Valid(c, run)
    ensures Run(c, run).w.eofRaised <==> c.w.eofRaised || EofPulled(c, run)
    decreases |run|
  {
    hide WriteInv, CallInv, BodyInv, Step, Enabled;
    if run != [] {
      EofStep(c, run[0]);
      StepKeeps(c, before, body, run[0]);
      EofRaisedExactly(Step(c, run[0]), before, body, run[1..]);
    }
  }

  /** The call has succeeded, or is about to because the stream was closed under it. */
  predicate Succeeding(c: Composed) {
    c.eof && (c.pc == Returned(None) || (c.pc.AwaitingEof? && c.w.s.closed))
  }

  lemma SuccessStep(c: Composed, e: Event)
    requires WriteInv(c.w) && CallInv(c) && Enabled(c, e) && Succeeding(Step(c, e))
    ensures Succeeding(c) || c.w.eofRaised || (c.pc.AwaitingEof? && e == Env(WriteClose))
  {
    hide WriteInv, Flatten, Capped, DropBytes, Produce;
    RaisedOrClosed(c.w);
    if e.Env? {
      WriteStepCloses(c.w, e.e);
    }
  }

  /** Why a write_eof succeeds. */
  lemma {:induction false} SuccessHasCause(c: Composed, before: seq<byte>, body: seq<byte>, run: seq<Event>)
    requires ComposedInv(c, before, body) && Valid(c, run) && Succeeding(Run(c, run))
    ensures Succeeding(c) || c.w.eofRaised || EofPulled(c, run) || EofClosed(c, run)
    decreases |run|
  {
    hide WriteInv, CallInv, BodyInv, Step, Enabled, Succeeding;
    if run != [] {
      EofStep(c, run[0]);
      StepKeeps(c, before, body, run[0]);
      SuccessHasCause(Step(c, run[0]), before, body, run[1..]);
      if Succeeding(Step(c, run[0])) {
        SuccessStep(c, run[0]);
      }
    }
  }

  // --------------------------------------------------------------------------------- how it ends

  /** The call has been cancelled: it has said so or will when it resumes. */
  predicate Cancelled(c: Composed) {
    c.pc == Returned(Some(Canceled)) || c.w.s.writeProgress.waiter == Posted(false)
  }

  lemma CancelStep(c: Composed, e: Event)
    requires CallInv(c) && Enabled(c, e)
    ensures Cancelled(Step(c, e)) <==> Cancelled(c) || e == Env(WriteCancel)
  {
    hide Flatten, Capped, DropBytes, WriteStep;
    match e
    case Env(f) => CancelEffect(c.w, f);
    case Go =>
      match c.pc
      case Calling => CancelEffect(c.w, WriteBegin(c.rest, false));
      case CallingEof => CancelEffect(c.w, WriteBegin([], true));
      case _ => CancelEffect(c.w, WriteResume);
  }

  lemma {:induction false} CancelledExactly(c: Composed, before: seq<byte>, body: seq<byte>, run: seq<Event>)
    requires ComposedInv(c, before, body) && Valid(c, run)
    ensures Cancelled(Run(c, run)) <==> Cancelled(c) || Env(WriteCancel) in run
    decreases |run|
  {
    hide WriteInv, CallInv, BodyInv, Step, Enabled, Cancelled;
    if run != [] {
      CancelStep(c, run[0]);
      StepKeeps(c, before, body, run[0]);
      CancelledExactly(Step(c, run[0]), before, body, run[1..]);
      assert run == [run[0]] + run[1..];
    }
  }

  /** An error is a cancellation or the refusal of a closed stream, with something still to do. */
  ghost predicate ErrorInv(c: Composed) {
    c.pc.Returned? && c.pc.error.Some? ==>
      c.pc.error == Some(Canceled) || (c.pc.error == Some(Eof) && c.w.s.closed && (c.eof || Flatten(c.rest) != []))
  }

  lemma ErrorStep(c: Composed, e: Event)
    requires ErrorInv(c) && CallInv(c) && Enabled(c, e) && (c.pc.CallingEof? ==> c.eof)
    ensures ErrorInv(Step(c, e)) && (Step(c, e).w.s.closed <==> c.w.s.closed || e == Env(WriteClose))
  {
    hide Flatten, Capped, DropBytes, Gather, Produce;
    if e.Env? {
      WriteStepCloses(c.w, e.e);
    }
  }

  lemma EofIsMeant(c: Composed, before: seq<byte>, body: seq<byte>)
    requires BodyInv(c, before, body)
    ensures c.pc.CallingEof? ==> c.eof
  {
    hide Flatten, Progress;
  }

  lemma {:induction false} ErrorsHaveCause(c: Composed, before: seq<byte>, body: seq<byte>, run: seq<Event>)
    requires ComposedInv(c, before, body) && ErrorInv(c) && Valid(c, run)
    ensures ErrorInv(Run(c, run)) && (Run(c, run).w.s.closed <==> c.w.s.closed || Env(WriteClose) in run)
    decreases |run|
  {
    hide WriteInv, CallInv, BodyInv, Step, Enabled, ErrorInv;
    if run != [] {
      EofIsMeant(c, before, body);
      ErrorStep(c, run[0]);
      StepKeeps(c, before, body, run[0]);
      ErrorsHaveCause(Step(c, run[0]), before, body, run[1..]);
      assert run == [run[0]] + run[1..];
    }
  }

  /** The final write_eof was begun, not refused. */
  predicate EofBegun(c: Composed) {
    c.pc.AwaitingEof? || (c.pc.Returned? && c.pc.error != Some(Eof))
  }

  lemma {:induction false} BegunStaysBegun(c: Composed, run: seq<Event>)
    requires Valid(c, run)
    ensures EofBegun(c) || EofPulled(c, run) || EofClosed(c, run) ==> EofBegun(Run(c, run))
    decreases |run|
  {
    hide WriteStep, WriteEnabled, Flatten, Capped, DropBytes;
    if run != [] {
      BegunStaysBegun(Step(c, run[0]), run[1..]);
    }
  }

  /** The call ends as it must: in a cancellation if and only if there was one; else in success if and only
      if every byte was written and a write_eof was not refused; and in a refusal only if the stream was
      closed. */
  ghost predicate EndsRightly(c: Composed, w: WriteWorld, bytes: seq<byte>, eof: bool, run: seq<Event>)
    requires Valid(c, run)
  {
    var t := Run(c, run);
    t.pc.Returned? ==>
      && (t.pc.error == Some(Canceled) <==> Env(WriteCancel) in run)
      && (t.pc.error == None <==>
            Env(WriteCancel) !in run && t.written == |bytes| && (eof ==> EofPulled(c, run) || EofClosed(c, run)))
      && (t.pc.error.Some? ==>
            t.pc.error == Some(Canceled) || (t.pc.error == Some(Eof) && (w.s.closed || Env(WriteClose) in run)))
  }

  lemma ComposedEndsRightly(w: WriteWorld, body: Buffers, eof: bool, run: seq<Event>)
    requires Writable(w) && Valid(Start(w, body, eof), run)
    ensures EndsRightly(Start(w, body, eof), w, Flatten(body), eof, run)
  {
    hide Valid, Run, Flatten, WriteInv, Progress, EofPulled, EofClosed;
    var start, bytes := Start(w, body, eof), Flatten(body);
    StartKeeps(w, body, eof);
    RunKeeps(start, w.pulled, bytes, run);
    EofAlwaysSame(start, run);
    CancelledExactly(start, w.pulled, bytes, run);
    ErrorsHaveCause(start, w.pulled, bytes, run);
    BegunStaysBegun(start, run);
    var c := Run(start, run);
    if c.pc == Returned(None) && eof {
      SuccessHasCause(start, w.pulled, bytes, run);
    }
    assert c.pc.Returned? ==> !InFlight(c.w.s);
    assert Flatten(c.rest) != [] ==> c.written < |bytes|;
  }

  /** A composed write of any sequence is exact at every moment: nghttp2 has pulled the reported bytes,
      in order, plus the call in flight; an error leaves the count at what really went out; success
      means every byte did; and EOF is raised only after the last of them. It is raised if and only if
      nghttp2 pulls while the final, empty write_eof is suspended. */
  lemma ComposedWriteIsExact(w: WriteWorld, body: Buffers, eof: bool, run: seq<Event>)
    requires Writable(w) && Valid(Start(w, body, eof), run)
    ensures var c, bytes := Run(Start(w, body, eof), run), Flatten(body);
            && c.written <= |bytes|
            && c.w.pulled == w.pulled + (bytes[..c.written] + Progress(c.w.s))
            && (c.w.eofRaised ==> eof && c.w.pulled == w.pulled + bytes)
            && (c.pc.Returned? ==> c.w.pulled == w.pulled + bytes[..c.written])
            && (c.w.eofRaised <==> EofPulled(Start(w, body, eof), run))
            && EndsRightly(Start(w, body, eof), w, bytes, eof, run)
  {
    hide Valid, Run, Flatten, WriteInv, Progress, EofPulled, EofClosed, EndsRightly;
    var start := Start(w, body, eof);
    StartKeeps(w, body, eof);
    RunKeeps(start, w.pulled, Flatten(body), run);
    EofAlwaysSame(start, run);
    EofRaisedExactly(start, w.pulled, Flatten(body), run);
    ComposedEndsRightly(w, body, eof, run);
    var c := Run(start, run);
    if c.w.eofRaised {
      EofMeansAll(c, w.pulled, Flatten(body));
    }
    if c.pc.Returned? {
      NoProgress(c.w.s);
      assert Flatten(body)[..c.written] + [] == Flatten(body)[..c.written];
    }
  }

  lemma {:induction false} EofAlwaysSame(c: Composed, run: seq<Event>)
    requires Valid(c, run)
    ensures Run(c, run).eof == c.eof
    decreases |run|
  {
    hide WriteStep, WriteEnabled;
    if run != [] {
      EofAlwaysSame(Step(c, run[0]), run[1..]);
    }
  }

  lemma EofMeansAll(c: Composed, before: seq<byte>, body: seq<byte>)
    requires ComposedInv(c, before, body) && c.w.eofRaised
    ensures c.w.pulled == before + body
  {
    hide Flatten, WriteInv, Progress;
    assert body[..|body|] == body && body[|body|..] == [] && body + [] == body;
    NoProgress(c.w.s);
  }

  // ------------------------------------------------------------------------------ no idle rounds

  /** How many steps the call can take before something else must happen. */
  function Steps(c: Composed): nat {
    match c.pc
    case Returned(_) => 0
    case AwaitingEof => if c.w.s.writeProgress.waiter.Posted? then 1 else 0
    case CallingEof => 1
    case Calling => if Flatten(c.rest) == [] then 2 else 1
    case Awaiting => if c.w.s.writeProgress.waiter.Posted? then 3 else 0
  }

  lemma GoCounts(c: Composed)
    requires Enabled(c, Go)
    ensures Steps(Step(c, Go)) < Steps(c)
  {
    hide Flatten, Capped, DropBytes;
  }

  function Gos(run: seq<Event>): nat {
    if run == [] then 0 else Bit(run[0].Go?) + Gos(run[1..])
  }

  /** The call never goes round on its own: it takes at most three steps for each thing that happens to the
      stream, and three more. */
  lemma {:induction false} NeverSpins(c: Composed, run: seq<Event>)
    requires Valid(c, run)
    ensures Gos(run) + Steps(Run(c, run)) <= Steps(c) + 3 * (|run| - Gos(run))
    decreases |run|
  {
    hide Step, Enabled, Flatten;
    if run != [] {
      if run[0].Go? {
        GoCounts(c);
      }
      NeverSpins(Step(c, run[0]), run[1..]);
    }
  }

  // ------------------------------------------------------------------------------- termination

  /** If there are bytes left, one write_some() is given some of them. */
  ghost predicate Moves(bs: Buffers) {
    Flatten(bs) != [] ==> Flatten(Capped(bs)) != []
  }

  /** The same, however many buffers are done with: no MAX_IOVEC empty ones in a row before a byte. */
  ghost predicate Dense(bs: Buffers) {
    forall i :: 0 <= i <= |bs| ==> Moves(bs[i..])
  }

  lemma DenseNow(bs: Buffers)
    requires Dense(bs)
    ensures Moves(bs)
  {
    assert bs[0..] == bs;
  }

  lemma DenseTail(bs: Buffers)
    requires Dense(bs) && bs != []
    ensures Dense(bs[1..])
  {
    hide Moves;
    forall i | 0 <= i <= |bs[1..]|
      ensures Moves(bs[1..][i..])
    {
      assert bs[1..][i..] == bs[i + 1..];
    }
  }

  lemma {:induction false} HasByte(bs: Buffers, k: nat)
    requires k < |bs| && bs[k] != []
    ensures Flatten(bs) != []
  {
    if k > 0 {
      HasByte(bs[1..], k - 1);
    }
  }

  lemma DenseCons(b: seq<byte>, bs: Buffers)
    requires Dense(bs) && b != []
    ensures Dense([b] + bs)
  {
    var all := [b] + bs;
    forall i | 0 <= i <= |all|
      ensures Moves(all[i..])
    {
      if i == 0 {
        HasByte(Capped(all[0..]), 0);
      } else {
        assert all[i..] == bs[i - 1..];
      }
    }
  }

  lemma {:induction false} DropKeepsDense(bs: Buffers, n: nat)
    requires Dense(bs)
    ensures Dense(DropBytes(bs, n))
  {
    hide Dense, Flatten;
    if bs != [] && n > 0 {
      DenseTail(bs);
      if n < |bs[0]| {
        DenseCons(bs[0][n..], bs[1..]);
      } else {
        DropKeepsDense(bs[1..], n - |bs[0]|);
      }
    }
  }

  /** No call is wasted: each finished one moved a byte, except one that a close ended. */
  ghost predicate CallsInv(c: Composed) {
    && Dense(c.rest)
    && match c.pc
       case Calling => c.calls <= c.written + Bit(c.w.s.closed)
       case Awaiting => c.calls <= c.written + 1
       case _ => c.calls <= c.written + 2
  }

  /** A call that ends in success without a byte had none to move or was closed under. */
  lemma IdleCallWasClosed(c: Composed)
    requires WriteInv(c.w) && CallInv(c) && c.pc.Awaiting? && c.w.s.writeProgress.waiter == Posted(true)
    ensures c.w.s.writeOffset == 0 && Flatten(Capped(c.rest)) != [] ==> c.w.s.closed
  {
    hide Flatten, Capped, WriteInv, CursorInv;
    WriteInvParts(c.w);
  }

  lemma ReturnKeepsCalls(c: Composed, before: seq<byte>, body: seq<byte>)
    requires ComposedInv(c, before, body) && CallsInv(c) && Enabled(c, Go) && c.pc.Awaiting?
    ensures CallsInv(Return(c))
  {
    hide Dense, Flatten, Capped, BodyInv, WriteInv, WriteStep, DropBytes;
    DropKeepsDense(c.rest, c.w.s.writeOffset);
    DenseNow(c.rest);
    if c.w.s.writeProgress.waiter.ok {
      IdleCallWasClosed(c);
    }
    WriteStepCloses(c.w, WriteResume);
  }

  lemma StepKeepsCalls(c: Composed, before: seq<byte>, body: seq<byte>, e: Event)
    requires ComposedInv(c, before, body) && CallsInv(c) && Enabled(c, e)
    ensures CallsInv(Step(c, e))
  {
    hide Dense, Flatten, Capped, WriteInv, BodyInv;
    if e.Go? && c.pc.Awaiting? {
      ReturnKeepsCalls(c, before, body);
    }
  }

  lemma {:induction false} RunKeepsCalls(c: Composed, before: seq<byte>, body: seq<byte>, run: seq<Event>)
    requires ComposedInv(c, before, body) && CallsInv(c) && Valid(c, run)
    ensures CallsInv(Run(c, run))
    decreases |run|
  {
    hide ComposedInv, CallsInv, Step, Enabled;
    if run != [] {
      StepKeepsCalls(c, before, body, run[0]);
      StepKeeps(c, before, body, run[0]);
      RunKeepsCalls(Step(c, run[0]), before, body, run[1..]);
    }
  }

  /** Over every run on every stream, however nghttp2 sizes its frames, the call makes at most two
      write_some() calls more than the body has bytes. */
  ghost predicate CallsBounded(body: Buffers, eof: bool) {
    forall w, run :: Writable(w) && Valid(Start(w, body, eof), run) ==>
      Run(Start(w, body, eof), run).calls <= |Flatten(body)| + 2
  }

  lemma DenseIsBounded(w: WriteWorld, body: Buffers, eof: bool, run: seq<Event>)
    requires Writable(w) && Dense(body) && Valid(Start(w, body, eof), run)
    ensures Run(Start(w, body, eof), run).calls <= |Flatten(body)| + 2
  {
    hide Valid, Run, Flatten, WriteInv, Dense;
    StartKeeps(w, body, eof);
    RunKeepsCalls(Start(w, body, eof), w.pulled, Flatten(body), run);
    RunKeeps(Start(w, body, eof), w.pulled, Flatten(body), run);
  }

  // ------------------------------------------------------------------ a sequence with a gap in it

  /** Between two calls on an open stream with an active provider and more window than bytes left. */
  ghost predicate Idle(c: Composed) {
    && c.pc.Calling? && !InFlight(c.w.s) && !c.w.s.closed && c.w.provider.Active?
    && c.w.sendWindow > |Flatten(c.rest)|
  }

  /** One write_some(), from which nghttp2 pulls all it can. */
  function Round(c: Composed): seq<Event> {
    [Go, Env(Pull(if c.w.sendWindow > 0 then c.w.sendWindow else 0)), Go]
  }

  lemma ThreeSteps(c: Composed, e: Event, f: Event, g: Event)
    requires Enabled(c, e) && Enabled(Step(c, e), f) && Enabled(Step(Step(c, e), f), g)
    ensures Valid(c, [e, f, g]) && Run(c, [e, f, g]) == Step(Step(Step(c, e), f), g)
  {
    hide Step, Enabled;
    var c1, c2 := Step(c, e), Step(Step(c, e), f);
    assert [e, f, g][1..] == [f, g] && [f, g][1..] == [g] && [g][1..] == [];
    assert Valid(Step(c2, g), []) && Run(Step(c2, g), []) == Step(c2, g);
    assert Valid(c2, [g]) && Run(c2, [g]) == Run(Step(c2, g), []);
    assert Valid(c1, [f, g]) && Run(c1, [f, g]) == Run(c2, [g]);
  }

  lemma AllPulled(s: WriteState, length: nat)
    requires s.writePending && !s.writeEofRequested && s.cursor == s.pending && s.writeOffset == 0
    requires length >= |Flatten(s.pending)|
    ensures var r := Produce(s, length);
            && r.piece == Piece(Flatten(s.pending), false) && r.state.writeOffset == |Flatten(s.pending)|
            && r.state.writeProgress == s.writeProgress.Set() && r.state.closed == s.closed
  {
    hide Flatten, DropBytes;
  }

  /** A round hands out everything in reach and comes back to where it was. */
  lemma RoundMoves(c: Composed)
    requires Idle(c) && Flatten(c.rest) != []
    ensures Valid(c, Round(c))
    ensures var d := Run(c, Round(c));
            Idle(d) && d.calls == c.calls + 1 && d.rest == DropBytes(c.rest, |Flatten(Capped(c.rest))|)
  {
    hide Flatten, DropBytes, Capped, Produce, Valid, Run;
    var c1 := Step(c, Go);
    assert c1.w.s.pending == Capped(c.rest) == c1.w.s.cursor && c1.w.s.writeProgress == AsyncEvent(false, Waiting);
    assert Flatten(Capped(c.rest)) <= Flatten(c.rest);
    AllPulled(c1.w.s, c.w.sendWindow);
    var c2 := Step(c1, Env(Pull(c.w.sendWindow)));
    var c3 := Step(c2, Go);
    ThreeSteps(c, Go, Env(Pull(c.w.sendWindow)), Go);
  }

  lemma {:induction false} RunThen(c: Composed, first: seq<Event>, more: seq<Event>)
    requires Valid(c, first) && Valid(Run(c, first), more)
    ensures Valid(c, first + more) && Run(c, first + more) == Run(Run(c, first), more)
    decreases |first|
  {
    hide Step, Enabled;
    if first == [] {
      assert first + more == more;
    } else {
      assert (first + more)[1..] == first[1..] + more;
      RunThen(Step(c, first[0]), first[1..], more);
    }
  }

  /** Behind a full array of empty buffers every round moves nothing, for as long as one likes. */
  lemma Stalls(c: Composed, n: nat) returns (run: seq<Event>)
    requires Idle(c) && !Moves(c.rest)
    ensures Valid(c, run) && Run(c, run).calls == c.calls + n
    decreases n
  {
    if n == 0 {
      run := [];
    } else {
      RoundMoves(c);
      var more := Stalls(Run(c, Round(c)), n - 1);
      RunThen(c, Round(c), more);
      run := Round(c) + more;
    }
  }

  lemma DropNone(bs: Buffers)
    ensures DropBytes(bs, 0) == bs && bs[0..] == bs
  {}

  lemma DropFront(bs: Buffers, n: nat)
    requires bs != [] && n > 0 && n >= |bs[0]|
    ensures DropBytes(bs, n) == DropBytes(bs[1..], n - |bs[0]|)
  {
    hide Flatten;
  }

  lemma FlattenFront(bs: Buffers, k: nat)
    requires k <= |bs| && Flatten(bs[..k]) != []
    ensures k > 0 && Flatten(bs[..k]) == bs[0] + Flatten(bs[1..][..k - 1])
  {
    if k > 0 {
      assert bs[..k][1..] == bs[1..][..k - 1];
    }
  }

  /** consume() of all bytes of the first k buffers stops right behind the last of them that has any. */
  lemma {:induction false} DropWhole(bs: Buffers, k: nat) returns (m: nat)
    requires k <= |bs|
    ensures m <= k && DropBytes(bs, |Flatten(bs[..k])|) == bs[m..]
    ensures (Flatten(bs[..k]) != [] ==> m > 0) && (m > 0 ==> bs[m - 1] != [])
    decreases |bs|
  {
    hide Flatten, DropBytes;
    if Flatten(bs[..k]) == [] {
      m := 0;
      DropNone(bs);
    } else {
      FlattenFront(bs, k);
      DropFront(bs, |Flatten(bs[..k])|);
      var i := DropWhole(bs[1..], k - 1);
      m := i + 1;
      assert bs[1..][i..] == bs[m..];
      if i == 0 {
        assert bs[0] + [] == bs[0];
        assert bs[m - 1] == bs[0] != [];
      } else {
        assert bs[m - 1] == bs[1..][i - 1] != [];
      }
    }
  }

  /** Rounds stop in front of the gap or before it. */
  lemma ReachesStall(c: Composed, body: Buffers, j: nat, gap: nat, n: nat) returns (run: seq<Event>)
    requires j <= gap <= |body| && !Moves(body[gap..])
    requires Idle(c) && c.rest == body[j..]
    ensures Valid(c, run) && Run(c, run).calls >= c.calls + n
    decreases gap - j
  {
    if !Moves(c.rest) {
      run := Stalls(c, n);
    } else {
      BytesRemain(body, j, gap);
      RoundMoves(c);
      var m := PastTheRound(body, j, gap);
      var more := ReachesStall(Run(c, Round(c)), body, j + m, gap, n);
      RunThen(c, Round(c), more);
      run := Round(c) + more;
    }
  }

  lemma BytesRemain(body: Buffers, j: nat, gap: nat)
    requires j <= gap <= |body| && Flatten(body[gap..]) != []
    ensures Flatten(body[j..]) != []
  {
    assert body[j..] == body[j..gap] + body[gap..];
    FlattenConcat(body[j..gap], body[gap..]);
  }

  /** A round from j ends behind a buffer with bytes, which cannot lie in the gap. */
  lemma PastTheRound(body: Buffers, j: nat, gap: nat) returns (m: nat)
    requires j <= gap <= |body| && !Moves(body[gap..]) && Moves(body[j..]) && Flatten(body[j..]) != []
    ensures 0 < m && j + m <= gap
    ensures DropBytes(body[j..], |Flatten(Capped(body[j..]))|) == body[j + m..]
  {
    hide Flatten, DropBytes;
    var rest, ahead := body[j..], body[gap..];
    m := DropWhole(rest, Min(MAX_IOVEC, |rest|));
    assert rest[m..] == body[j + m..];
    if j + m > gap {
      var k := j + m - 1 - gap;
      assert Capped(ahead)[k] == rest[m - 1];
      HasByte(Capped(ahead), k);
    }
  }

  /** A new stream whose HEADERS went out, with this window. */
  function Opened(sendWindow: nat): WriteWorld {
    NewWriteWorld(sendWindow).(provider := Active)
  }

  /** A submit and its HEADERS lead there. */
  lemma OpenedIsReached(sendWindow: nat)
    ensures S.WriteReached(Opened(sendWindow)) && Writable(Opened(sendWindow))
  {
    var w := NewWriteWorld(sendWindow);
    T.TwoWriteSteps(w, Submit(false), HeadersSent);
    assert WriteRun(w, [Submit(false), HeadersSent]) == Opened(sendWindow);
  }

  /** Otherwise there is no bound at all, on a stream that a run of the code reaches. */
  lemma GapIsUnbounded(body: Buffers, eof: bool, n: nat) returns (w: WriteWorld, run: seq<Event>)
    requires !Dense(body)
    ensures S.WriteReached(w)
    ensures Writable(w) && Valid(Start(w, body, eof), run) && Run(Start(w, body, eof), run).calls >= n
  {
    hide S.WriteReached, WriteInv, Moves, Flatten, Valid, Run;
    var gap :| 0 <= gap <= |body| && !Moves(body[gap..]);
    w := Opened(|Flatten(body)| + 1);
    OpenedIsReached(|Flatten(body)| + 1);
    assert body[0..] == body;
    run := ReachesStall(Start(w, body, eof), body, 0, gap, n);
  }

  /** The composed write terminates, whatever happens, if and only if its sequence is dense. */
  lemma ComposedWriteTerminatesExactly(body: Buffers, eof: bool)
    ensures CallsBounded(body, eof) <==> Dense(body)
  {
    hide Dense, Writable, Valid, Run, Flatten;
    if Dense(body) {
      forall w, run | Writable(w) && Valid(Start(w, body, eof), run)
        ensures Run(Start(w, body, eof), run).calls <= |Flatten(body)| + 2
      {
        DenseIsBounded(w, body, eof, run);
      }
    } else {
      var w, run := GapIsUnbounded(body, eof, |Flatten(body)| + 3);
    }
  }

  /** At most MAX_IOVEC buffers, or none of them empty, is always enough. */
  lemma UsuallyDense(body: Buffers)
    requires |body| <= MAX_IOVEC || NonEmptyBuffers(body)
    ensures Dense(body)
  {
    forall i | 0 <= i <= |body|
      ensures Moves(body[i..])
    {
      var rest := body[i..];
      if |body| > MAX_IOVEC && rest != [] {
        HasByte(Capped(rest), 0);
      }
    }
  }
}
