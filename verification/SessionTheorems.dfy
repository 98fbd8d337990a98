/** What every run of a session guarantees. */
module SessionTheorems {
  import opened Bytes
  import opened Capy
  import opened ReadSide
  import opened WriteSide
  import opened StatusSide
  import opened StreamWorld
  import opened SessionModel
  import opened SessionInvariant

  /** A state that some run from a new session reaches. */
  ghost predicate InSession(s: Session) {
    exists connWindow, run ::
      SessionValid(NewSession(connWindow), run) && SessionRun(NewSession(connWindow), run) == s
  }

  lemma ReachedSessionInv(s: Session)
    requires InSession(s)
    ensures SessionInv(s)
  {
    hide SessionInv;
    var connWindow, run :|
      SessionValid(NewSession(connWindow), run) && SessionRun(NewSession(connWindow), run) == s;
    NewSessionInv(connWindow);
    RunKeepsSessionInv(NewSession(connWindow), run);
  }

  // ------------------------------------------------------------------------------------ wakeup

  /** nghttp2 holds the stream's provider ready to be called: its HEADERS went out, its body has not
      ended, and both windows have room. */
  predicate MaySend(s: Session, id: int) {
    && OpenStream(s, id)
    && var wr := s.tab.streams[id].wr;
       && (wr.provider.Active? || wr.provider.Deferred?)
       && wr.sendWindow > 0 && s.ng.connWindow > 0
  }

  /** No lost wakeup: when send_loop waits unsignalled and recv_loop is not in the middle of input,
      nghttp2 has nothing at all to send, and no stream that may send has a write waiting on it. */
  lemma NoLostWakeup(s: Session)
    requires InSession(s) && s.pump.ready.waiter.Waiting? && !s.recv.Parsing?
    ensures !HasOutput(s.tab, s.ng)
    ensures forall id :: MaySend(s, id) ==> !s.tab.streams[id].wr.s.writePending
  {
    ReachedSessionInv(s);
    forall id | MaySend(s, id)
      ensures !s.tab.streams[id].wr.s.writePending
    {
      var x := s.tab.streams[id];
      assert !Sendable(x, s.ng.connWindow);
      assert Reachable(x) && x.wr.s.writeDeferred;
    }
  }

  // ------------------------------------------------------------------------------------ output

  /** Coalescing keeps the byte stream: what the socket accepted is a prefix of what nghttp2 produced,
      the accumulator and the chunk being written are exactly the difference until an error, it stays
      within its capacity, and send_loop neither sleeps nor leaves in an orderly way before everything
      is written. */
  lemma OutputIsByteExact(s: Session)
    requires InSession(s)
    ensures s.pump.socket <= s.pump.taken && |s.pump.pending| <= CAPACITY
    ensures s.pump.pc != Exited(true) ==> s.pump.taken == s.pump.socket + (s.pump.pending + Extra(s.pump))
    ensures s.pump.pc.Asleep? || s.pump.pc == Exited(false) ==> s.pump.socket == s.pump.taken
  {
    ReachedSessionInv(s);
    var none: seq<byte> := [];
    assert none + none == none && s.pump.socket + none == s.pump.socket;
  }

  // ------------------------------------------------------------------------------ stream table

  /** A stream is found under its id exactly until it is closed, and while nghttp2 runs no report about
      a stream it considers open is dropped. */
  lemma TableIsExact(s: Session, id: int, e: StreamEvent)
    requires InSession(s) && id in s.tab.streams
    ensures id in s.tab.listed <==> !s.tab.streams[id].Closed()
    ensures RecvEnabled(s, Callback(id, e)) ==>
              StreamEnabled(s.tab.streams[id], e) &&
              Deliver(s.tab, id, e) == Put(s.tab, id, StreamStep(s.tab.streams[id], e))
  {
    ReachedSessionInv(s);
    if RecvEnabled(s, Callback(id, e)) {
      ReportArrives(s.tab, id, e);
    }
  }

  /** Nobody is left waiting unsignalled on the stream. */
  predicate AllSignalled(x: Stream) {
    && !x.rd.s.readReady.waiter.Waiting?
    && !x.wr.s.writeProgress.waiter.Waiting?
    && !x.st.statusReady.waiter.Waiting?
  }

  lemma CloseSignals(x: Stream)
    requires StreamEnabled(x, Close)
    ensures AllSignalled(StreamStep(x, Close)) && StreamStep(x, Close).Closed()
  {}

  lemma ClosedWaitsForNothing(x: Stream)
    requires StreamInv(x) && x.Closed()
    ensures !x.rd.s.readReady.waiter.Waiting? && !x.wr.s.writeProgress.waiter.Waiting?
  {}

  /** When run() ends the table is empty and every stream of the session is closed. No read and no write
      is left waiting on any of them, listed or not, and no status call on those still listed. */
  lemma SweepSignalsEveryone(s: Session)
    requires InSession(s) && SessionEnabled(s, RunEnds)
    ensures var t := SessionStep(s, RunEnds);
            && t.tab.listed == {} && t.tab.streams.Keys == s.tab.streams.Keys
            && forall id :: id in t.tab.streams ==>
                 var x := t.tab.streams[id];
                 && x.Closed() && !x.rd.s.readReady.waiter.Waiting? && !x.wr.s.writeProgress.waiter.Waiting?
                 && (id in s.tab.listed ==> AllSignalled(x))
  {
    ReachedSessionInv(s);
    hide StreamStep, StreamEnabled, StreamInv;
    var t := SessionStep(s, RunEnds);
    assert t.tab == Sweep(s.tab);
    forall id | id in s.tab.streams
      ensures var x := t.tab.streams[id];
              && x.Closed() && !x.rd.s.readReady.waiter.Waiting? && !x.wr.s.writeProgress.waiter.Waiting?
              && (id in s.tab.listed ==> AllSignalled(x))
    {
      if id in s.tab.listed {
        ListedIsOpen(s.tab.streams[id]);
        CloseSignals(s.tab.streams[id]);
      }
      ClosedWaitsForNothing(t.tab.streams[id]);
    }
  }

  // ------------------------------------------------------------------------------ after the end

  /** The three waits of a stream. */
  datatype Wait = ReadWait | WriteWait | StatusWait

  predicate IsWaiting(x: Stream, k: Wait) {
    match k
    case ReadWait => x.rd.s.readReady.waiter.Waiting?
    case WriteWait => x.wr.s.writeProgress.waiter.Waiting?
    case StatusWait => x.st.statusReady.waiter.Waiting?
  }

  /** What user code can still do to a stream moves no byte, and ends a wait only by its cancellation. */
  ghost predicate Idles(x: Stream, y: Stream, k: Wait, cancelled: bool) {
    && y.Closed() == x.Closed() && y.rd.received == x.rd.received && y.wr.pulled == x.wr.pulled
    && (!cancelled && IsWaiting(x, k) ==> IsWaiting(y, k))
  }

  predicate IsCancel(e: StreamEvent, k: Wait) {
    match k
    case ReadWait => e == OnRead(ReadCancel)
    case WriteWait => e == OnWrite(WriteCancel)
    case StatusWait => e == OnStatus(StatusCancel)
  }

  lemma UserIdles(x: Stream, e: StreamEvent, k: Wait)
    requires StreamEnabled(x, e) && (IsHalf(e) || e == OnWrite(Submit(false)) || (e.OnRead? && e.r.Credit?))
    ensures Idles(x, StreamStep(x, e), k, IsCancel(e, k))
  {
    hide Drain, Flatten;
  }

  /** Both loops are gone, so only user code is left. */
  lemma OnlyUsersAreLeft(s: Session, e: SessionEvent)
    requires SessionInv(s) && s.swept && SessionEnabled(s, e)
    ensures UserEnabled(s, e) && SessionStep(s, e) == UserStep(s, e) && SessionStep(s, e).swept
  {
    hide TableInv, HasOutput, StreamStep, StreamEnabled, Sweep, UserStep, RecvStep, SendStep, Consumes, IsHalf;
    assert s.pump.pc.Exited? && s.pump.ready.waiter.Nobody?;
    UserNeverUnsweeps(s, e);
  }

  lemma UserNeverUnsweeps(s: Session, e: SessionEvent)
    requires s.swept
    ensures UserEnabled(s, e) ==> UserStep(s, e).swept && !e.SendCancel? && !e.RunEnds?
  {
    hide StreamStep, StreamEnabled, Pokes, Consumes, IsHalf;
  }

  predicate Cancels(e: SessionEvent, id: int, k: Wait) {
    e.Half? && e.id == id && IsCancel(e.e, k)
  }

  lemma StreamIdles(s: Session, e: SessionEvent, id: int, k: Wait)
    requires UserEnabled(s, e) && id in s.tab.streams
    ensures var t := UserStep(s, e).tab;
            && id in t.streams && Idles(s.tab.streams[id], t.streams[id], k, Cancels(e, id, k))
            && (id in t.listed <==> id in s.tab.listed)
  {
    hide StreamStep, StreamEnabled, Idles, IsHalf, IsCancel, Consumes, Pokes;
    var x := s.tab.streams[id];
    match e
    case Half(i, h, _) =>
      if i == id {
        UserIdles(x, h, k);
      } else {
        NothingIdles(x, k);
      }
    case SubmitResponse(i) =>
      if i == id {
        assert !IsCancel(OnWrite(Submit(false)), k) by { NotCancels(k); }
        UserIdles(x, OnWrite(Submit(false)), k);
      } else {
        NothingIdles(x, k);
      }
    case CreditSent(i, n) =>
      if i == id {
        assert !IsCancel(OnRead(Credit(n)), k) by { NotCancels(k); }
        UserIdles(x, OnRead(Credit(n)), k);
      } else {
        NothingIdles(x, k);
      }
    case SubmitRequest(_, _, _) => NothingIdles(x, k);
  }

  lemma NothingIdles(x: Stream, k: Wait)
    ensures Idles(x, x, k, false)
  {}

  lemma NotCancels(k: Wait)
    ensures !IsCancel(OnWrite(Submit(false)), k) && forall n :: !IsCancel(OnRead(Credit(n)), k)
  {}

  predicate CancelsAny(run: seq<SessionEvent>, id: int, k: Wait) {
    exists i :: 0 <= i < |run| && Cancels(run[i], id, k)
  }

  lemma IdlesOn(x: Stream, y: Stream, z: Stream, k: Wait, a: bool, b: bool)
    requires Idles(x, y, k, a) && Idles(y, z, k, b)
    ensures Idles(x, z, k, a || b)
  {}

  lemma {:induction false} StreamIdlesOn(s: Session, run: seq<SessionEvent>, id: int, k: Wait)
    requires SessionInv(s) && s.swept && SessionValid(s, run) && id in s.tab.streams
    ensures var t := SessionRun(s, run);
            && id in t.tab.streams && Idles(s.tab.streams[id], t.tab.streams[id], k, CancelsAny(run, id, k))
            && (id in t.tab.listed <==> id in s.tab.listed)
    decreases |run|
  {
    hide SessionInv, SessionEnabled, SessionStep, UserEnabled, UserStep, Idles, Cancels;
    if run == [] {
      NothingIdles(s.tab.streams[id], k);
    } else {
      var u := SessionStep(s, run[0]);
      OnlyUsersAreLeft(s, run[0]);
      StreamIdles(s, run[0], id, k);
      StepKeepsSessionInv(s, run[0]);
      StreamIdlesOn(u, run[1..], id, k);
      IdlesOn(s.tab.streams[id], u.tab.streams[id], SessionRun(u, run[1..]).tab.streams[id],
              k, Cancels(run[0], id, k), CancelsAny(run[1..], id, k));
      assert run == [run[0]] + run[1..];
    }
  }

  /** After the end of run() nothing arrives and nothing is pulled any more, and no stream changes between
      open and closed. On a closed one no read or write ever waits; on an open one every wait lasts
      until it is cancelled. */
  lemma AfterTheEnd(s: Session, run: seq<SessionEvent>, id: int, k: Wait)
    requires InSession(s) && s.swept && SessionValid(s, run) && id in s.tab.streams
    ensures var t := SessionRun(s, run);
            && id in t.tab.streams
            && Idles(s.tab.streams[id], t.tab.streams[id], k, CancelsAny(run, id, k))
            && (id !in s.tab.listed ==>
                  var x := t.tab.streams[id];
                  x.Closed() && !x.rd.s.readReady.waiter.Waiting? && !x.wr.s.writeProgress.waiter.Waiting?)
  {
    hide InSession, SessionRun, SessionValid, StreamInv, Idles;
    ReachedSessionInv(s);
    StreamIdlesOn(s, run, id, k);
    RunKeepsSessionInv(s, run);
    var t := SessionRun(s, run);
    if id !in s.tab.listed {
      ClosedWaitsForNothing(t.tab.streams[id]);
    }
  }

  lemma {:induction false} NewOnesAreListed(s: Session, run: seq<SessionEvent>, id: int)
    requires SessionInv(s) && s.swept && SessionValid(s, run)
    requires id !in s.tab.streams && id in SessionRun(s, run).tab.streams
    ensures id in SessionRun(s, run).tab.listed
    decreases |run|
  {
    hide SessionInv, SessionEnabled, SessionStep, UserEnabled, UserStep, Idles;
    if run != [] {
      var u := SessionStep(s, run[0]);
      OnlyUsersAreLeft(s, run[0]);
      StepKeepsSessionInv(s, run[0]);
      if id in u.tab.streams {
        JustRegistered(s, run[0], id);
        StreamIdlesOn(u, run[1..], id, ReadWait);
      } else {
        NewOnesAreListed(u, run[1..], id);
      }
    }
  }

  lemma JustRegistered(s: Session, e: SessionEvent, id: int)
    requires UserEnabled(s, e) && id !in s.tab.streams && id in UserStep(s, e).tab.streams
    ensures id in UserStep(s, e).tab.listed
  {
    hide StreamStep, StreamEnabled, Consumes, Pokes;
  }

  /** The streams that are still open after the end of run() are exactly those requested after it:
      submit_request lists them, and nobody is left to close them. */
  lemma OnlyLateRequestsStayOpen(s: Session, run: seq<SessionEvent>, id: int)
    requires InSession(s) && SessionEnabled(s, RunEnds) && SessionValid(SessionStep(s, RunEnds), run)
    requires id in SessionRun(SessionStep(s, RunEnds), run).tab.streams
    ensures !SessionRun(SessionStep(s, RunEnds), run).tab.streams[id].Closed() <==> id !in s.tab.streams
  {
    hide InSession, SessionRun, SessionValid, Reachable, StreamStep, StreamEnabled, UserEnabled, RecvEnabled, SendEnabled;
    ReachedSessionInv(s);
    var t := SessionStep(s, RunEnds);
    assert t.swept && t.tab.listed == {} && t.tab.streams.Keys == s.tab.streams.Keys;
    StepKeepsSessionInv(s, RunEnds);
    RunKeepsSessionInv(t, run);
    if id in s.tab.streams {
      StreamIdlesOn(t, run, id, ReadWait);
    } else {
      NewOnesAreListed(t, run, id);
    }
  }

  // -------------------------------------------------------------------------- streams in a session

  /** Whatever else goes on in the session, each of its streams keeps every promise of a single one:
      it got where it is by a run of its own read side and a run of its own write side. */
  lemma StreamsKeepTheirPromises(s: Session, id: int)
    requires InSession(s) && id in s.tab.streams
    ensures var x := s.tab.streams[id];
            && ReadReached(x.rd) && WriteReached(x.wr)
            && x.rd.received == x.rd.returned + Backlog(x.rd.s)
            && |Backlog(x.rd.s)| <= WINDOW_SIZE
            && x.wr.pulled == Reported(x.wr.writes) + Progress(x.wr.s)
  {
    hide InSession, ReadReached, WriteReached, Backlog, Reported, Progress;
    ReachedSessionInv(s);
  }

  // ---------------------------------------------------------------------------------- shutdown

  /** From any state, once recv_loop has finished, the GOAWAY is queued or sent and send_loop is never
      again waiting unsignalled. */
  lemma ShutdownReachesSendLoop(s: Session)
    requires InSession(s) && s.recv.Done?
    ensures !s.ng.goaway.NoGoaway? && !s.pump.ready.waiter.Waiting?
  {
    ReachedSessionInv(s);
  }
}
