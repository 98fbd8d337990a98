/** The write side of one HTTP/2 stream: a cursor over caller-owned buffers that nghttp2 pulls from,
    with a deferred/resume handshake. write_impl is cut at its co_await into two halves. */
module WriteSide {
  import opened Bytes
  import opened Capy

  datatype WriteState = WriteState(pending: Buffers, cursor: Buffers, writeOffset: nat,
                                   writePending: bool, writeEofRequested: bool, writeDeferred: bool,
                                   closed: bool, writeProgress: AsyncEvent)

  const NEW_WRITE_STATE := WriteState([], [], 0, false, false, false, false, FRESH)

  datatype WriteOutcome = WriteDone(error: Option<Error>, n: nat) | WriteSuspended

  /** The state a half leaves behind, its result, and whether it called
      nghttp2_session_resume_data. A half that suspends has also called start_write(). */
  datatype WriteReaction = WriteReaction(state: WriteState, outcome: WriteOutcome, resumed: bool)

  /** What the data provider hands nghttp2: NGHTTP2_ERR_DEFERRED, or bytes and the EOF flag. */
  datatype Piece = Deferring | Piece(data: seq<byte>, eof: bool)

  datatype PullReaction = PullReaction(state: WriteState, piece: Piece)

  /** write_impl up to its co_await; `buffers` is already a capped array. */
  function BeginWrite(s: WriteState, buffers: Buffers, eof: bool): WriteReaction {
    if s.closed then WriteReaction(s, WriteDone(Some(Eof), 0), false)
    else WriteReaction(WriteState(buffers, buffers, 0, true, eof, false, s.closed,
                                  s.writeProgress.Clear().Wait()),
                       WriteSuspended, s.writeDeferred)
  }

  function ResumeWrite(s: WriteState): WriteReaction
    requires s.writeProgress.waiter.Posted?
  {
    WriteReaction(s.(writePending := false, writeProgress := s.writeProgress.Resumed()),
                  WriteDone(if s.writeProgress.waiter.ok then None else Some(Canceled), s.writeOffset),
                  false)
  }

  /** producer_callback, called by nghttp2 with room for `length` bytes. */
  function Produce(s: WriteState, length: nat): PullReaction {
    if !s.writePending then PullReaction(s.(writeDeferred := true), Deferring)
    else
      var copied := Gather(s.cursor, length);
      var s1 := s.(cursor := DropBytes(s.cursor, |copied|), writeOffset := s.writeOffset + |copied|);
      if s1.writeOffset == |Flatten(s1.pending)| || !s.writeEofRequested then
        PullReaction(s1.(writePending := false, writeProgress := s1.writeProgress.Set()),
                     Piece(copied, s.writeEofRequested))
      else PullReaction(s1, Piece(copied, false))
  }

  function OnWriteClose(s: WriteState): WriteState {
    s.(closed := true, writeProgress := s.writeProgress.Set())
  }

  // -------------------------------------------------------------------------------------- runs

  /** The data provider as nghttp2 sees it. A held request waits for a concurrency slot. */
  datatype Provider = Unsubmitted | Submitted(held: bool) | Active | Deferred | Finished

  /** One finished write call: the bytes it was given and the count it reported. */
  datatype WriteRecord = WriteRecord(bytes: seq<byte>, n: nat)

  /** The write side with nghttp2's view of it and a log of what went through: `current` is the
      request a suspended write was made with. */
  datatype WriteWorld = WriteWorld(s: WriteState, provider: Provider, sendWindow: int,
                                   pulled: seq<byte>, current: Buffers, writes: seq<WriteRecord>,
                                   eofRaised: bool)

  function NewWriteWorld(sendWindow: int): WriteWorld {
    WriteWorld(NEW_WRITE_STATE, Unsubmitted, sendWindow, [], [], [], false)
  }

  datatype WriteEvent =
    | WriteBegin(buffers: Buffers, eof: bool) | WriteResume | WriteCancel
    | Submit(hold: bool) | Unhold | HeadersSent | WindowChange(delta: int)
    | Pull(length: nat) | WriteClose

  /** The environment's contract: at most one write outstanding; nghttp2 pulls only from an active
      provider (never a deferred or finished one) of an open stream, and only within the window. */
  predicate WriteEnabled(w: WriteWorld, e: WriteEvent) {
    match e
    case WriteBegin(_, _) => w.s.writeProgress.waiter.Nobody?
    case WriteResume => w.s.writeProgress.waiter.Posted?
    case WriteCancel => w.s.writeProgress.waiter.Waiting?
    case Submit(_) => w.provider.Unsubmitted? && !w.s.closed
    case Unhold => w.provider == Submitted(true)
    case HeadersSent => w.provider == Submitted(false) && !w.s.closed
    case WindowChange(_) => true
    case Pull(length) => w.provider.Active? && 0 < length <= w.sendWindow && !w.s.closed
    case WriteClose => !w.s.closed
  }

  function WriteBegun(w: WriteWorld, b: Buffers, r: WriteReaction): WriteWorld {
    var provider := if r.resumed && w.provider.Deferred? then Active else w.provider;
    match r.outcome
    case WriteDone(_, n) =>
      w.(s := r.state, provider := provider, writes := w.writes + [WriteRecord(Flatten(b), n)])
    case WriteSuspended => w.(s := r.state, provider := provider, current := b)
  }

  function WriteEnded(w: WriteWorld, r: WriteReaction): WriteWorld {
    var n := if r.outcome.WriteDone? then r.outcome.n else 0;
    w.(s := r.state, writes := w.writes + [WriteRecord(Flatten(w.current), n)])
  }

  function Pulled(w: WriteWorld, r: PullReaction): WriteWorld {
    match r.piece
    case Deferring => w.(s := r.state, provider := Deferred)
    case Piece(data, eof) =>
      w.(s := r.state, provider := if eof then Finished else w.provider,
         sendWindow := w.sendWindow - |data|, pulled := w.pulled + data,
         eofRaised := w.eofRaised || eof)
  }

  function WriteStep(w: WriteWorld, e: WriteEvent): WriteWorld
    requires WriteEnabled(w, e)
  {
    match e
    case WriteBegin(buffers, eof) =>
      WriteBegun(w, Capped(buffers), BeginWrite(w.s, Capped(buffers), eof))
    case WriteResume => WriteEnded(w, ResumeWrite(w.s))
    case WriteCancel => w.(s := w.s.(writeProgress := w.s.writeProgress.Cancel()))
    case Submit(hold) => w.(provider := Submitted(hold))
    case Unhold => w.(provider := Submitted(false))
    case HeadersSent => w.(provider := Active)
    case WindowChange(delta) => w.(sendWindow := w.sendWindow + delta)
    case Pull(length) => Pulled(w, Produce(w.s, length))
    case WriteClose => w.(s := OnWriteClose(w.s))
  }

  predicate WriteValid(w: WriteWorld, run: seq<WriteEvent>)
    decreases |run|
  {
    run == [] || (WriteEnabled(w, run[0]) && WriteValid(WriteStep(w, run[0]), run[1..]))
  }

  function WriteRun(w: WriteWorld, run: seq<WriteEvent>): WriteWorld
    requires WriteValid(w, run)
    decreases |run|
  {
    if run == [] then w else WriteRun(WriteStep(w, run[0]), run[1..])
  }

  // --------------------------------------------------------------------------------- invariant

  predicate InFlight(s: WriteState) {
    !s.writeProgress.waiter.Nobody?
  }

  /** What finished writes reported, concatenated in order. */
  function Reported(writes: seq<WriteRecord>): seq<byte> {
    if writes == [] then []
    else
      var last := writes[|writes| - 1];
      Reported(writes[..|writes| - 1]) + last.bytes[..Min(last.n, |last.bytes|)]
  }

  /** The progress of the write in flight. */
  function Progress(s: WriteState): seq<byte> {
    if InFlight(s) then Flatten(s.pending)[..Min(s.writeOffset, |Flatten(s.pending)|)] else []
  }

  ghost predicate CursorInv(s: WriteState) {
    && s.writeOffset <= |Flatten(s.pending)|
    && Flatten(s.cursor) == Flatten(s.pending)[s.writeOffset..]
  }

  /** A write that the provider has completed moved something, and all of it with EOF last if it was
      a write_eof. */
  ghost predicate CompletedWell(s: WriteState, eofRaised: bool) {
    && (s.writeOffset > 0 || |Flatten(s.pending)| == 0)
    && (s.writeEofRequested ==> eofRaised && s.writeOffset == |Flatten(s.pending)|)
  }

  ghost predicate HandshakeInv(s: WriteState, provider: Provider, eofRaised: bool) {
    && (s.writeDeferred <==> provider.Deferred?)
    && !(s.writePending && s.writeDeferred)
    && (s.writePending ==> InFlight(s))
    && (s.writePending && !s.writeEofRequested ==> s.writeOffset == 0)
    && (s.writeProgress.waiter.Waiting? ==> s.writePending && !s.closed && !s.writeProgress.isSet)
    && (s.writeProgress.waiter == Posted(true) && s.writePending ==> s.closed)
    && (eofRaised <==> provider.Finished?)
    && (InFlight(s) && !s.writePending ==> CompletedWell(s, eofRaised))
  }

  ghost predicate LogInv(w: WriteWorld) {
    && (InFlight(w.s) ==> w.s.pending == w.current)
    && (forall i :: 0 <= i < |w.writes| ==> w.writes[i].n <= |w.writes[i].bytes|)
    && w.pulled == Reported(w.writes) + Progress(w.s)
  }

  ghost predicate WriteInv(w: WriteWorld) {
    CursorInv(w.s) && HandshakeInv(w.s, w.provider, w.eofRaised) && LogInv(w)
  }

  lemma ReportedAppend(writes: seq<WriteRecord>, r: WriteRecord)
    requires r.n <= |r.bytes|
    ensures Reported(writes + [r]) == Reported(writes) + r.bytes[..r.n]
  {
    assert (writes + [r])[..|writes|] == writes;
  }

  lemma Advance(all: seq<byte>, offset: nat, k: nat)
    requires offset + k <= |all|
    ensures all[..offset] + all[offset..][..k] == all[..offset + k]
    ensures all[offset..][k..] == all[offset + k..]
    ensures all[offset..] == all[offset..][..k] + all[offset + k..]
  {
    assert all[offset..][..k] == all[offset..offset + k];
  }

  /** One pull moves the next bytes of the request: as many as fit, in order. */
  lemma PullMoves(s: WriteState, length: nat)
    requires CursorInv(s) && s.writePending
    ensures var r := Produce(s, length);
            && r.piece.Piece? && r.state.pending == s.pending && CursorInv(r.state)
            && r.state.writeOffset == s.writeOffset + |r.piece.data|
            && |r.piece.data| == Min(length, |Flatten(s.pending)| - s.writeOffset)
            && Flatten(s.pending)[..r.state.writeOffset] ==
               Flatten(s.pending)[..s.writeOffset] + r.piece.data
            && Flatten(s.cursor) == r.piece.data + Flatten(r.state.cursor)
  {
    hide Flatten;
    Advance(Flatten(s.pending), s.writeOffset, |Gather(s.cursor, length)|);
  }

  /** The bytes a pull hands out. */
  function Moved(s: WriteState, length: nat): seq<byte> {
    var piece := Produce(s, length).piece;
    if piece.Piece? then piece.data else []
  }

  /** What a pull changes: the progress of the write in flight and the bytes pulled go on together, and
      EOF is raised only by a write that asked for it. */
  lemma PullEffect(w: WriteWorld, length: nat)
    requires CursorInv(w.s) && (w.s.writePending ==> InFlight(w.s)) && WriteEnabled(w, Pull(length))
    ensures var v, data := WriteStep(w, Pull(length)), Moved(w.s, length);
            && v.pulled == w.pulled + data && Progress(v.s) == Progress(w.s) + data
            && v.s.writeOffset == w.s.writeOffset + |data| <= |Flatten(v.s.pending)|
            && v.s.pending == w.s.pending && v.s.writeEofRequested == w.s.writeEofRequested
            && InFlight(v.s) == InFlight(w.s) && v.s.closed == w.s.closed && v.current == w.current
            && (w.eofRaised ==> v.eofRaised)
            && (v.eofRaised ==> w.eofRaised || (InFlight(w.s) && w.s.writeEofRequested))
  {
    hide Flatten;
    if w.s.writePending {
      PullMoves(w.s, length);
    }
  }

  lemma PullKeepsWriteInv(w: WriteWorld, length: nat)
    requires WriteInv(w) && WriteEnabled(w, Pull(length))
    ensures WriteInv(WriteStep(w, Pull(length)))
  {
    hide Flatten, Reported;
    PullEffect(w, length);
    Assoc(Reported(w.writes), Progress(w.s), Moved(w.s, length));
    if w.s.writePending {
      PullMoves(w.s, length);
    }
  }

  lemma BeginKeepsWriteInv(w: WriteWorld, buffers: Buffers, eof: bool)
    requires WriteInv(w) && WriteEnabled(w, WriteBegin(buffers, eof))
    ensures WriteInv(WriteStep(w, WriteBegin(buffers, eof)))
  {
    if w.s.closed {
      ReportedAppend(w.writes, WriteRecord(Flatten(Capped(buffers)), 0));
    }
  }

  lemma ResumeKeepsWriteInv(w: WriteWorld)
    requires WriteInv(w) && WriteEnabled(w, WriteResume)
    ensures WriteInv(WriteStep(w, WriteResume))
  {
    hide Flatten, Reported;
    ReportedAppend(w.writes, WriteRecord(Flatten(w.current), w.s.writeOffset));
  }

  /** What the beginning of a write changes: nothing on a closed stream, else it is in flight. */
  lemma BeginEffect(w: WriteWorld, buffers: Buffers, eof: bool)
    requires WriteEnabled(w, WriteBegin(buffers, eof))
    ensures var v, o := WriteStep(w, WriteBegin(buffers, eof)), BeginWrite(w.s, Capped(buffers), eof).outcome;
            && v.pulled == w.pulled && v.eofRaised == w.eofRaised && v.s.closed == w.s.closed
            && Progress(v.s) == []
            && (if w.s.closed then v.s == w.s && o == WriteDone(Some(Eof), 0)
                else o == WriteSuspended && InFlight(v.s) && v.s.pending == Capped(buffers) && v.s.writeEofRequested == eof)
  {
    hide Flatten, Capped;
  }

  /** What the end of a write changes: nothing but that it is over. */
  lemma ResumeEffect(w: WriteWorld)
    requires CursorInv(w.s) && WriteEnabled(w, WriteResume)
    ensures var v := WriteStep(w, WriteResume);
            && v.pulled == w.pulled && v.eofRaised == w.eofRaised && v.s.closed == w.s.closed
            && !InFlight(v.s) && Progress(v.s) == []
    ensures Progress(w.s) <= Flatten(w.s.pending) && |Progress(w.s)| == w.s.writeOffset
  {
    hide Flatten;
  }

  lemma StepKeepsWriteInv(w: WriteWorld, e: WriteEvent)
    requires WriteInv(w) && WriteEnabled(w, e)
    ensures WriteInv(WriteStep(w, e))
  {
    hide Flatten, Reported;
    match e
    case Pull(length) => PullKeepsWriteInv(w, length);
    case WriteBegin(buffers, eof) => BeginKeepsWriteInv(w, buffers, eof);
    case WriteResume => ResumeKeepsWriteInv(w);
    case _ =>
  }

  /** The invariant holds in every state of every run. */
  lemma {:induction false} RunKeepsWriteInv(w: WriteWorld, run: seq<WriteEvent>)
    requires WriteInv(w) && WriteValid(w, run)
    ensures WriteInv(WriteRun(w, run))
    decreases |run|
  {
    if run != [] {
      StepKeepsWriteInv(w, run[0]);
      RunKeepsWriteInv(WriteStep(w, run[0]), run[1..]);
    }
  }

  // ------------------------------------------------------------------- what the invariant says

  lemma WriteStepCloses(w: WriteWorld, e: WriteEvent)
    requires WriteEnabled(w, e)
    ensures WriteStep(w, e).s.closed == (w.s.closed || e == WriteClose)
  {
    hide Flatten, Capped, Gather, DropBytes;
  }

  lemma WriteInvParts(w: WriteWorld)
    requires WriteInv(w)
    ensures CursorInv(w.s) && (w.s.writePending ==> InFlight(w.s))
    ensures w.s.writeProgress.waiter == Posted(true) && w.s.writePending ==> w.s.closed
    ensures InFlight(w.s) && !w.s.writePending ==> CompletedWell(w.s, w.eofRaised)
  {
    hide CursorInv, LogInv, CompletedWell;
  }

  lemma PullPosts(s: WriteState, length: nat)
    ensures var p := Produce(s, length).state.writeProgress; p == s.writeProgress || p == s.writeProgress.Set()
  {
    hide Flatten, Gather, DropBytes;
  }

  /** A wait is cancelled by a cancellation, and stays so until it is resumed. */
  lemma CancelEffect(w: WriteWorld, e: WriteEvent)
    requires WriteEnabled(w, e)
    ensures WriteStep(w, e).s.writeProgress.waiter == Posted(false) <==>
            (w.s.writeProgress.waiter == Posted(false) && e != WriteResume) || e == WriteCancel
  {
    hide Flatten, Capped, Produce;
    if e.Pull? {
      PullPosts(w.s, e.length);
    }
  }

  lemma RaisedOrClosed(w: WriteWorld)
    requires WriteInv(w)
    ensures w.s.writeProgress.waiter == Posted(true) && w.s.writeEofRequested ==> w.eofRaised || w.s.closed
  {
    hide CursorInv, LogInv, Flatten;
  }

  lemma NoProgress(s: WriteState)
    requires !InFlight(s) || s.pending == []
    ensures Progress(s) == []
  {}

  /** Which events raise EOF: a pull that completes the write_eof in flight, and no other. */
  lemma EofRaisedBy(w: WriteWorld, e: WriteEvent)
    requires WriteInv(w) && WriteEnabled(w, e)
    ensures WriteStep(w, e).eofRaised <==>
            w.eofRaised || (e.Pull? && w.s.writePending && w.s.writeEofRequested
                            && e.length >= |Flatten(w.s.pending)| - w.s.writeOffset)
    ensures e.Pull? && InFlight(w.s) && w.s.writeEofRequested ==> w.s.writePending && !w.eofRaised
  {
    hide Flatten, LogInv, Reported;
    if e.Pull? && w.s.writePending {
      PullMoves(w.s, e.length);
    }
  }
}
