/** What every run of a stream's write side guarantees to its writers and to nghttp2. */
module WriteTheorems {
  import opened Bytes
  import opened Capy
  import opened WriteSide

  // ------------------------------------------------------------------------------ conservation

  /** Under any mix of completion, close and cancellation, nghttp2 has pulled exactly the counted
      prefixes of the finished writes, in order, followed by the progress of the one in flight. */
  lemma WritesAreFaithful(sendWindow: int, run: seq<WriteEvent>)
    requires WriteValid(NewWriteWorld(sendWindow), run)
    ensures var w := WriteRun(NewWriteWorld(sendWindow), run);
            && w.pulled == Reported(w.writes) + Progress(w.s)
            && (forall i :: 0 <= i < |w.writes| ==> w.writes[i].n <= |w.writes[i].bytes|)
            && (InFlight(w.s) ==> Progress(w.s) <= Flatten(w.current))
  {
    RunKeepsWriteInv(NewWriteWorld(sendWindow), run);
  }

  function Total(writes: seq<WriteRecord>): nat {
    if writes == [] then 0 else Total(writes[..|writes| - 1]) + writes[|writes| - 1].n
  }

  /** The caller sends `body` and, after each write, goes on where the reported counts say it got. */
  ghost predicate GoesOnWhereItGot(body: seq<byte>, writes: seq<WriteRecord>) {
    writes == [] ||
    var before := writes[..|writes| - 1];
    && GoesOnWhereItGot(body, before)
    && Total(before) <= |body|
    && writes[|writes| - 1].bytes <= body[Total(before)..]
  }

  lemma {:induction false} CountsTellTheTruth(body: seq<byte>, writes: seq<WriteRecord>)
    requires GoesOnWhereItGot(body, writes)
    requires forall i :: 0 <= i < |writes| ==> writes[i].n <= |writes[i].bytes|
    ensures Total(writes) <= |body| && Reported(writes) == body[..Total(writes)]
  {
    if writes != [] {
      var before, last := writes[..|writes| - 1], writes[|writes| - 1];
      CountsTellTheTruth(body, before);
      var t := Total(before);
      assert last.bytes[..last.n] == body[t..][..last.n] == body[t..t + last.n];
      assert body[..t] + body[t..t + last.n] == body[..t + last.n];
    }
  }

  /** A write cut short, even by cancellation, can be resumed: what was pulled is a prefix of the body,
      with no byte lost and none repeated. */
  lemma CutShortWritesResume(sendWindow: int, run: seq<WriteEvent>, body: seq<byte>)
    requires WriteValid(NewWriteWorld(sendWindow), run)
    requires var w := WriteRun(NewWriteWorld(sendWindow), run);
             GoesOnWhereItGot(body, w.writes) && !InFlight(w.s)
    ensures var w := WriteRun(NewWriteWorld(sendWindow), run);
            Total(w.writes) <= |body| && w.pulled == body[..Total(w.writes)]
  {
    RunKeepsWriteInv(NewWriteWorld(sendWindow), run);
    CountsTellTheTruth(body, WriteRun(NewWriteWorld(sendWindow), run).writes);
  }

  // --------------------------------------------------------------------------------- handshake

  /** `write_deferred_` is true exactly while nghttp2 holds the provider deferred; a pending write
      never coexists with it and always has its coroutine suspended; a write whose wait has not been
      ended is still pending on an open stream. */
  lemma DeferralMirror(sendWindow: int, run: seq<WriteEvent>)
    requires WriteValid(NewWriteWorld(sendWindow), run)
    ensures var w := WriteRun(NewWriteWorld(sendWindow), run);
            && (w.s.writeDeferred <==> w.provider.Deferred?)
            && !(w.s.writePending && w.s.writeDeferred)
            && (w.s.writePending ==> InFlight(w.s))
            && (w.s.writeProgress.waiter.Waiting? ==> w.s.writePending && !w.s.closed)
  {
    RunKeepsWriteInv(NewWriteWorld(sendWindow), run);
  }

  /** The callback reads only buffers whose owner is still suspended, and hands out precisely the next
      bytes of that owner's request. */
  lemma CallbackReadsLiveBuffers(sendWindow: int, run: seq<WriteEvent>, length: nat)
    requires WriteValid(NewWriteWorld(sendWindow), run)
    requires WriteEnabled(WriteRun(NewWriteWorld(sendWindow), run), Pull(length))
    requires Produce(WriteRun(NewWriteWorld(sendWindow), run).s, length).piece.Piece?
    ensures var w := WriteRun(NewWriteWorld(sendWindow), run);
            var data := Produce(w.s, length).piece.data;
            InFlight(w.s) && Progress(w.s) + data <= Flatten(w.current)
  {
    RunKeepsWriteInv(NewWriteWorld(sendWindow), run);
    PullMoves(WriteRun(NewWriteWorld(sendWindow), run).s, length);
  }

  // ------------------------------------------------------------------------------- one write call

  /** A write in flight, with this request. A write_eof that is not completed has bytes left, if it ever
      had any. */
  ghost predicate InCall(w: WriteWorld, request: Buffers, eof: bool) {
    && WriteInv(w) && InFlight(w.s) && w.s.pending == request && w.s.writeEofRequested == eof
    && (w.s.writePending && Flatten(request) != [] ==> w.s.writeOffset < |Flatten(request)|)
  }

  /** How much of the request is left. */
  function Left(s: WriteState): nat {
    if s.writeOffset <= |Flatten(s.pending)| then |Flatten(s.pending)| - s.writeOffset else 0
  }

  /** Nobody begins or resumes a write in these events. */
  predicate SameCall(during: seq<WriteEvent>) {
    forall i :: 0 <= i < |during| ==> !during[i].WriteBegin? && !during[i].WriteResume?
  }

  /** All the room nghttp2 offers in these events. */
  function Room(during: seq<WriteEvent>): nat {
    if during == [] then 0
    else (if during[0].Pull? then during[0].length else 0) + Room(during[1..])
  }

  /** The room it offers in its first pull, if there is one. */
  function FirstRoom(during: seq<WriteEvent>): Option<nat> {
    if during == [] then None
    else if during[0].Pull? then Some(during[0].length)
    else FirstRoom(during[1..])
  }

  /** These events complete a write with `left` bytes to go: a plain one by the first pull, a write_eof by
      pulls with room for all of it. */
  predicate Completes(during: seq<WriteEvent>, left: nat, eof: bool) {
    FirstRoom(during).Some? && (eof ==> Room(during) >= left)
  }

  /** The bytes they take from it. */
  function Took(during: seq<WriteEvent>, left: nat, eof: bool): nat {
    if FirstRoom(during).None? then 0
    else Min(if eof then Room(during) else FirstRoom(during).value, left)
  }

  lemma {:induction false} NoPullNoRoom(during: seq<WriteEvent>)
    ensures FirstRoom(during).None? ==> Room(during) == 0
  {
    if during != [] {
      NoPullNoRoom(during[1..]);
    }
  }

  lemma ConsRoom(e: WriteEvent, later: seq<WriteEvent>)
    ensures Room([e] + later) == (if e.Pull? then e.length else 0) + Room(later)
    ensures FirstRoom([e] + later) == if e.Pull? then Some(e.length) else FirstRoom(later)
  {
    assert ([e] + later)[1..] == later;
  }

  /** What a pull does to the write in flight. */
  lemma PullInCall(w: WriteWorld, length: nat, request: Buffers, eof: bool)
    requires InCall(w, request, eof) && WriteEnabled(w, Pull(length))
    ensures var v := WriteStep(w, Pull(length));
            && InCall(v, request, eof) && !w.eofRaised
            && v.pulled == w.pulled + Flatten(request)[w.s.writeOffset..v.s.writeOffset]
            && (if w.s.writePending then
                  && v.s.writeOffset == w.s.writeOffset + Min(length, Left(w.s))
                  && (v.s.writePending <==> eof && length < Left(w.s))
                  && (v.eofRaised <==> eof && length >= Left(w.s))
                else !v.s.writePending && v.s.writeOffset == w.s.writeOffset && v.eofRaised == w.eofRaised)
  {
    hide Flatten, WriteInv, CursorInv, WriteStep, Progress, Moved;
    StepKeepsWriteInv(w, Pull(length));
    WriteInvParts(w);
    PullEffect(w, length);
    PullCounts(w, length);
    PulledPart(w, length);
  }

  lemma PullCounts(w: WriteWorld, length: nat)
    requires WriteInv(w) && WriteEnabled(w, Pull(length))
    ensures var v := WriteStep(w, Pull(length));
            && !w.eofRaised && v.s.writeOffset <= |Flatten(w.s.pending)|
            && (if w.s.writePending then
                  && v.s.writeOffset == w.s.writeOffset + Min(length, Left(w.s))
                  && (v.s.writePending <==> w.s.writeEofRequested && length < Left(w.s))
                  && (v.eofRaised <==> w.s.writeEofRequested && length >= Left(w.s))
                else !v.s.writePending && v.s.writeOffset == w.s.writeOffset && v.eofRaised == w.eofRaised)
  {
    hide Flatten, LogInv;
    if w.s.writePending {
      PullMoves(w.s, length);
    }
  }

  lemma PulledPart(w: WriteWorld, length: nat)
    requires WriteInv(w) && WriteEnabled(w, Pull(length)) && InFlight(w.s)
    ensures var v := WriteStep(w, Pull(length));
            && w.s.writeOffset <= v.s.writeOffset <= |Flatten(w.s.pending)|
            && v.pulled == w.pulled + Flatten(w.s.pending)[w.s.writeOffset..v.s.writeOffset]
  {
    hide Flatten, WriteStep, LogInv, Moved;
    PullEffect(w, length);
    var all, i, data := Flatten(w.s.pending), w.s.writeOffset, Moved(w.s, length);
    assert all[..i + |data|] == all[..i] + data;
    assert data == all[i..i + |data|];
  }

  lemma OtherInCall(w: WriteWorld, e: WriteEvent, request: Buffers, eof: bool)
    requires InCall(w, request, eof) && WriteEnabled(w, e) && !e.WriteBegin? && !e.WriteResume? && !e.Pull?
    ensures var v := WriteStep(w, e);
            && InCall(v, request, eof) && v.s.writeOffset == w.s.writeOffset && v.s.writePending == w.s.writePending
            && v.eofRaised == w.eofRaised && v.pulled == w.pulled
  {
    hide Flatten, CursorInv, LogInv, CompletedWell;
    StepKeepsWriteInv(w, e);
  }

  /** Where the call has got by these events. */
  ghost predicate CallGoes(w: WriteWorld, during: seq<WriteEvent>, t: WriteWorld, request: Buffers, eof: bool) {
    && InCall(t, request, eof)
    && w.s.writeOffset <= t.s.writeOffset <= |Flatten(request)|
    && t.pulled == w.pulled + Flatten(request)[w.s.writeOffset..t.s.writeOffset]
    && (if w.s.writePending then
          && t.s.writeOffset == w.s.writeOffset + Took(during, Left(w.s), eof)
          && (t.s.writePending <==> !Completes(during, Left(w.s), eof))
          && (t.eofRaised <==> w.eofRaised || (eof && Completes(during, Left(w.s), eof)))
        else !t.s.writePending && t.s.writeOffset == w.s.writeOffset && t.eofRaised == w.eofRaised)
  }

  lemma OffsetInRange(w: WriteWorld, request: Buffers, eof: bool)
    requires InCall(w, request, eof)
    ensures w.s.writeOffset <= |Flatten(request)| && Left(w.s) == |Flatten(request)| - w.s.writeOffset
    ensures w.s.writePending && !eof ==> w.s.writeOffset == 0
    ensures w.s.writePending && Flatten(request) != [] ==> Left(w.s) > 0
  {
    hide Flatten, LogInv;
  }

  lemma PartsJoin(all: seq<byte>, a: seq<byte>, i: nat, j: nat, k: nat)
    requires i <= j <= k <= |all|
    ensures (a + all[i..j]) + all[j..k] == a + all[i..k]
  {
    assert all[i..j] + all[j..k] == all[i..k];
  }

  lemma CallGoesOn(w: WriteWorld, e: WriteEvent, later: seq<WriteEvent>, v: WriteWorld, t: WriteWorld,
                   request: Buffers, eof: bool)
    requires InCall(w, request, eof) && InCall(v, request, eof) && CallGoes(v, later, t, request, eof)
    requires WriteEnabled(w, e) && v == WriteStep(w, e) && !e.WriteBegin? && !e.WriteResume?
    ensures CallGoes(w, [e] + later, t, request, eof)
  {
    hide WriteStep, WriteEnabled, InCall, Flatten, Left, Room, FirstRoom;
    ConsRoom(e, later);
    NoPullNoRoom(later);
    OffsetInRange(w, request, eof);
    OffsetInRange(v, request, eof);
    if e.Pull? {
      PullInCall(w, e.length, request, eof);
    } else {
      OtherInCall(w, e, request, eof);
      assert Flatten(request)[w.s.writeOffset..w.s.writeOffset] == [] && w.pulled + [] == w.pulled;
    }
    PartsJoin(Flatten(request), w.pulled, w.s.writeOffset, v.s.writeOffset, t.s.writeOffset);
  }

  lemma {:induction false} CallRuns(w: WriteWorld, during: seq<WriteEvent>, request: Buffers, eof: bool)
    requires InCall(w, request, eof) && WriteValid(w, during) && SameCall(during)
    ensures CallGoes(w, during, WriteRun(w, during), request, eof)
    decreases |during|
  {
    hide WriteStep, WriteEnabled, InCall, Flatten, Left, CallGoes;
    if during == [] {
      CallStands(w, request, eof);
    } else {
      var e, later := during[0], during[1..];
      var v := WriteStep(w, e);
      if e.Pull? {
        PullInCall(w, e.length, request, eof);
      } else {
        OtherInCall(w, e, request, eof);
      }
      CallRuns(v, later, request, eof);
      CallGoesOn(w, e, later, v, WriteRun(v, later), request, eof);
      assert [e] + later == during;
    }
  }

  lemma CallStands(w: WriteWorld, request: Buffers, eof: bool)
    requires InCall(w, request, eof)
    ensures CallGoes(w, [], w, request, eof)
  {
    hide InCall, Flatten, Left;
    OffsetInRange(w, request, eof);
    assert Flatten(request)[w.s.writeOffset..w.s.writeOffset] == [] && w.pulled + [] == w.pulled;
  }

  /** When the wait of the call ends, and how. */
  ghost predicate WaitGoes(w: WriteWorld, during: seq<WriteEvent>, t: WriteWorld, eof: bool) {
    var before, after := w.s.writeProgress.waiter, t.s.writeProgress.waiter;
    && (after == Posted(false) <==> before == Posted(false) || WriteCancel in during)
    && (after.Waiting? <==>
          before.Waiting? && WriteCancel !in during && WriteClose !in during && !Completes(during, Left(w.s), eof))
  }

  lemma PullWait(w: WriteWorld, length: nat)
    requires CursorInv(w.s) && WriteEnabled(w, Pull(length))
    ensures WriteStep(w, Pull(length)).s.writeProgress ==
            if w.s.writePending && (w.s.writeEofRequested ==> length >= Left(w.s)) then w.s.writeProgress.Set()
            else w.s.writeProgress
  {
    hide Flatten;
    if w.s.writePending {
      PullMoves(w.s, length);
    }
  }

  lemma WaitingIsPending(w: WriteWorld)
    requires WriteInv(w)
    ensures CursorInv(w.s) && (w.s.writeProgress.waiter.Waiting? ==> w.s.writePending)
  {
    hide CursorInv, LogInv, CompletedWell;
  }

  lemma WaitStep(w: WriteWorld, e: WriteEvent, request: Buffers, eof: bool)
    requires InCall(w, request, eof) && WriteEnabled(w, e) && !e.WriteBegin? && !e.WriteResume?
    ensures var before, after := w.s.writeProgress.waiter, WriteStep(w, e).s.writeProgress.waiter;
            && (after == Posted(false) <==> before == Posted(false) || e == WriteCancel)
            && (after.Waiting? <==>
                  before.Waiting? && e != WriteCancel && e != WriteClose && !(e.Pull? && (eof ==> e.length >= Left(w.s))))
            && (before.Waiting? ==> w.s.writePending)
  {
    hide Flatten, WriteInv, Left, Produce, CursorInv;
    WaitingIsPending(w);
    if e.Pull? {
      PullWait(w, e.length);
    }
  }

  lemma {:induction false} WaitRuns(w: WriteWorld, during: seq<WriteEvent>, request: Buffers, eof: bool)
    requires InCall(w, request, eof) && WriteValid(w, during) && SameCall(during)
    ensures WaitGoes(w, during, WriteRun(w, during), eof)
    decreases |during|
  {
    hide WriteStep, WriteEnabled, InCall, Flatten, Left;
    if during != [] {
      var e, later := during[0], during[1..];
      var v := WriteStep(w, e);
      WaitStep(w, e, request, eof);
      NoPullNoRoom(later);
      OffsetInRange(w, request, eof);
      if e.Pull? {
        PullInCall(w, e.length, request, eof);
      } else {
        OtherInCall(w, e, request, eof);
      }
      OffsetInRange(v, request, eof);
      WaitRuns(v, later, request, eof);
      assert during == [e] + later;
    }
  }

  lemma BeginsCall(w: WriteWorld, buffers: Buffers, eof: bool)
    requires WriteInv(w) && WriteEnabled(w, WriteBegin(buffers, eof)) && !w.s.closed
    ensures var v := WriteStep(w, WriteBegin(buffers, eof));
            && InCall(v, Capped(buffers), eof) && v.s.writePending && v.s.writeOffset == 0
            && v.s.writeProgress.waiter.Waiting? && v.pulled == w.pulled && v.eofRaised == w.eofRaised
            && BeginWrite(w.s, Capped(buffers), eof).outcome == WriteSuspended
  {
    hide Flatten, Capped, CursorInv, LogInv, CompletedWell;
    StepKeepsWriteInv(w, WriteBegin(buffers, eof));
  }

  lemma {:induction false} ClosedByClose(w: WriteWorld, run: seq<WriteEvent>)
    requires WriteValid(w, run)
    ensures WriteRun(w, run).s.closed <==> w.s.closed || WriteClose in run
    decreases |run|
  {
    hide WriteStep, WriteEnabled;
    if run != [] {
      WriteStepCloses(w, run[0]);
      ClosedByClose(WriteStep(w, run[0]), run[1..]);
      assert run == [run[0]] + run[1..];
    }
  }

  /** A write to a stream that was closed is refused. */
  lemma RefusedExactly(sendWindow: int, run: seq<WriteEvent>, buffers: Buffers, eof: bool)
    requires WriteValid(NewWriteWorld(sendWindow), run)
    ensures BeginWrite(WriteRun(NewWriteWorld(sendWindow), run).s, Capped(buffers), eof).outcome ==
            if WriteClose in run then WriteDone(Some(Eof), 0) else WriteSuspended
  {
    hide Capped;
    ClosedByClose(NewWriteWorld(sendWindow), run);
  }

  /** A write call is exact, plain or write_eof, whatever happens between its call and its resumption.
      It waits until it is cancelled, the stream is closed or nghttp2 has pulled enough (once, or for a
      write_eof all of it), and not longer. It reports a cancellation if and only if there was one, and
      else success; and the bytes nghttp2 was handed, no more and no less. EOF is raised if and only if
      it is a write_eof and nghttp2 pulled at least once and with room for all of it. */
  lemma WriteCallIsExact(sendWindow: int, run: seq<WriteEvent>, buffers: Buffers, eof: bool, during: seq<WriteEvent>)
    requires WriteValid(NewWriteWorld(sendWindow), run)
    requires var w := WriteRun(NewWriteWorld(sendWindow), run);
             && WriteEnabled(w, WriteBegin(buffers, eof)) && WriteClose !in run
             && WriteValid(WriteStep(w, WriteBegin(buffers, eof)), during) && SameCall(during)
    ensures var w, bytes := WriteRun(NewWriteWorld(sendWindow), run), Flatten(Capped(buffers));
            var t := WriteRun(WriteStep(w, WriteBegin(buffers, eof)), during);
            var n := Took(during, |bytes|, eof);
            && t.pulled == w.pulled + bytes[..n]
            && (t.eofRaised <==> w.eofRaised || (eof && Completes(during, |bytes|, eof)))
            && (t.s.writeProgress.waiter.Posted? <==>
                  WriteCancel in during || WriteClose in during || Completes(during, |bytes|, eof))
            && (t.s.writeProgress.waiter.Posted? ==>
                  ResumeWrite(t.s).outcome == WriteDone(if WriteCancel in during then Some(Canceled) else None, n))
  {
    hide WriteInv, WriteStep, WriteEnabled, WriteValid, WriteRun, Flatten, Completes, Took, Capped;
    var w, request := WriteRun(NewWriteWorld(sendWindow), run), Capped(buffers);
    assert WriteInv(NewWriteWorld(sendWindow)) by { NewWriteWorldInv(sendWindow); }
    RunKeepsWriteInv(NewWriteWorld(sendWindow), run);
    ClosedByClose(NewWriteWorld(sendWindow), run);
    var v := WriteStep(w, WriteBegin(buffers, eof));
    BeginsCall(w, buffers, eof);
    CallRuns(v, during, request, eof);
    WaitRuns(v, during, request, eof);
    assert Flatten(request)[0..WriteRun(v, during).s.writeOffset] == Flatten(request)[..WriteRun(v, during).s.writeOffset];
  }

  lemma NewWriteWorldInv(sendWindow: int)
    ensures WriteInv(NewWriteWorld(sendWindow))
  {}

  lemma TwoWriteSteps(w: WriteWorld, e: WriteEvent, f: WriteEvent)
    requires WriteEnabled(w, e) && WriteEnabled(WriteStep(w, e), f)
    ensures WriteValid(w, [e, f]) && WriteRun(w, [e, f]) == WriteStep(WriteStep(w, e), f)
  {
    hide WriteStep, WriteEnabled;
    var w1, w2 := WriteStep(w, e), WriteStep(WriteStep(w, e), f);
    assert [e, f][1..] == [f] && [f][1..] == [];
    assert WriteValid(w2, []) && WriteRun(w2, []) == w2;
    assert WriteValid(w1, [f]) && WriteRun(w1, [f]) == WriteRun(w2, []);
  }

  /** Such a close is possible: it ends a parked write_eof with success, no byte and no EOF. */
  lemma CloseEndsWriteWithoutError()
    ensures exists run ::
              && WriteValid(NewWriteWorld(0), run)
              && var w := WriteRun(NewWriteWorld(0), run);
                 && WriteEnabled(w, WriteResume)
                 && w.s.writeEofRequested && Flatten(w.current) != []
                 && ResumeWrite(w.s).outcome == WriteDone(None, 0) && !w.eofRaised
  {
    var run := [WriteBegin([[7]], true), WriteClose];
    var w0 := NewWriteWorld(0);
    var w1 := WriteStep(w0, run[0]);
    var w2 := WriteStep(w1, run[1]);
    TwoWriteSteps(w0, run[0], run[1]);
    FlattenOne([7]);
  }

  // -------------------------------------------------------------------------------- end of body

  function Sum(lengths: seq<nat>): nat {
    if lengths == [] then 0 else lengths[0] + Sum(lengths[1..])
  }

  /** The pieces a suspended write yields when nghttp2 pulls with these lengths. */
  function Pieces(s: WriteState, lengths: seq<nat>): seq<Piece>
    decreases |lengths|
  {
    if lengths == [] || !s.writePending then []
    else
      var r := Produce(s, lengths[0]);
      [r.piece] + Pieces(r.state, lengths[1..])
  }

  function Payload(pieces: seq<Piece>): seq<byte> {
    if pieces == [] then []
    else (if pieces[0].Piece? then pieces[0].data else []) + Payload(pieces[1..])
  }

  /** Only the last piece carries EOF, and it does exactly when everything went out. */
  ghost predicate EofOnlyLast(pieces: seq<Piece>, everything: bool) {
    && (forall i :: 0 <= i < |pieces| ==> pieces[i].Piece? && (pieces[i].eof ==> i == |pieces| - 1))
    && (pieces != [] ==> (pieces[|pieces| - 1].eof <==> everything))
  }

  lemma ConsPiece(p: Piece, more: seq<Piece>, everything: bool)
    requires p.Piece? && EofOnlyLast(more, everything)
    requires if more == [] then p.eof <==> everything else !p.eof
    ensures EofOnlyLast([p] + more, everything) && Payload([p] + more) == p.data + Payload(more)
  {
    assert ([p] + more)[1..] == more;
  }

  lemma NoPieces(everything: bool)
    ensures EofOnlyLast([], everything) && Payload([]) == []
  {}

  /** A pull in the middle of a write_eof uses its whole length; the one at the end drains the rest. */
  lemma EofPull(s: WriteState, length: nat)
    requires CursorInv(s) && s.writePending && s.writeEofRequested && length > 0
    ensures var r, rest := Produce(s, length), Flatten(s.cursor);
            && r.piece.Piece? && CursorInv(r.state) && r.state.writeEofRequested
            && r.piece.eof == !r.state.writePending == (length >= |rest|)
            && (if r.state.writePending then |r.piece.data| == length && rest == r.piece.data + Flatten(r.state.cursor)
                else r.piece.data == rest)
  {
    PullMoves(s, length);
  }

  /** For every sequence of frame sizes, a write_eof's pieces concatenate to the front of its bytes,
      as far as the sizes reach, and EOF rides on the piece that completes them and on no other. */
  lemma {:induction false} EofRidesOnLastPiece(s: WriteState, lengths: seq<nat>)
    requires CursorInv(s) && s.writePending && s.writeEofRequested
    requires forall i :: 0 <= i < |lengths| ==> lengths[i] > 0
    ensures var rest := Flatten(s.cursor);
            && Payload(Pieces(s, lengths)) <= rest
            && |Payload(Pieces(s, lengths))| == Min(Sum(lengths), |rest|)
            && EofOnlyLast(Pieces(s, lengths), Sum(lengths) >= |rest|)
    decreases |lengths|
  {
    hide Flatten, CursorInv, Produce, Payload, EofOnlyLast;
    if lengths == [] {
      NoPieces(Sum(lengths) >= |Flatten(s.cursor)|);
    } else {
      var r, rest := Produce(s, lengths[0]), Flatten(s.cursor);
      EofPull(s, lengths[0]);
      var more, everything := Pieces(r.state, lengths[1..]), Sum(lengths) >= |rest|;
      if r.state.writePending {
        EofRidesOnLastPiece(r.state, lengths[1..]);
        assert more == [] ==> lengths[1..] == [];
      } else {
        NoPieces(everything);
      }
      ConsPiece(r.piece, more, everything);
    }
  }

  lemma {:induction false} FinishedStaysFinished(w: WriteWorld, later: seq<WriteEvent>)
    requires w.provider.Finished? && WriteValid(w, later)
    ensures WriteRun(w, later).pulled == w.pulled && WriteRun(w, later).provider.Finished?
    decreases |later|
  {
    if later != [] {
      FinishedStaysFinished(WriteStep(w, later[0]), later[1..]);
    }
  }

  /** EOF comes last: once raised, nghttp2 never pulls another byte from the stream. */
  lemma NothingAfterEof(sendWindow: int, run: seq<WriteEvent>, later: seq<WriteEvent>)
    requires WriteValid(NewWriteWorld(sendWindow), run)
    requires WriteRun(NewWriteWorld(sendWindow), run).eofRaised
    requires WriteValid(WriteRun(NewWriteWorld(sendWindow), run), later)
    ensures var w := WriteRun(NewWriteWorld(sendWindow), run);
            WriteRun(w, later).pulled == w.pulled
  {
    RunKeepsWriteInv(NewWriteWorld(sendWindow), run);
    FinishedStaysFinished(WriteRun(NewWriteWorld(sendWindow), run), later);
  }
}
