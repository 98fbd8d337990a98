/** What every step of a session keeps. */
module SessionInvariant {
  import opened Bytes
  import opened Capy
  import opened ReadSide
  import opened WriteSide
  import opened StatusSide
  import opened StreamWorld
  import opened SessionModel

  // ------------------------------------------------------------------------------ stream table

  /** Every stream behaves as a stream; it is listed under its id exactly until it is closed; and as
      long as nghttp2 runs, what it considers open is listed. */
  ghost predicate TableInv(tab: Table, swept: bool) {
    && tab.listed <= tab.streams.Keys && tab.open <= tab.streams.Keys
    && (!swept ==> tab.open <= tab.listed)
    && (forall id :: id in tab.streams ==>
          Reachable(tab.streams[id]) && (id in tab.listed <==> !tab.streams[id].Closed()))
  }

  lemma StepCloses(x: Stream, e: StreamEvent)
    requires StreamEnabled(x, e)
    ensures StreamStep(x, e).Closed() == (x.Closed() || e.Close?)
  {
    if e.OnRead? {
      ReadStepCloses(x.rd, e.r);
    }
  }

  lemma StepKeepsTable(tab: Table, swept: bool, id: int, e: StreamEvent)
    requires TableInv(tab, swept) && id in tab.streams && StreamEnabled(tab.streams[id], e) && !e.Close?
    ensures TableInv(Put(tab, id, StreamStep(tab.streams[id], e)), swept)
  {
    hide Reachable, StreamStep, StreamEnabled;
    StepKeepsReachable(tab.streams[id], e);
    StepCloses(tab.streams[id], e);
  }

  lemma RegisterKeepsTable(tab: Table, swept: bool, id: int, x: Stream)
    requires TableInv(tab, swept) && id !in tab.streams && Reachable(x) && !x.Closed()
    ensures TableInv(Register(tab, id, x), swept)
  {
    hide Reachable;
  }

  /** A listed stream can be closed: it is not closed yet. */
  lemma ListedIsOpen(x: Stream)
    requires Reachable(x) && !x.Closed()
    ensures StreamEnabled(x, Close) && Reachable(StreamStep(x, Close)) && StreamStep(x, Close).Closed()
  {
    StepKeepsReachable(x, Close);
    StepCloses(x, Close);
  }

  lemma CloseKeepsTable(tab: Table, swept: bool, id: int)
    requires TableInv(tab, swept) && id in tab.streams
    ensures var t := CloseStream(tab, id); TableInv(t.(open := t.open - {id}), swept)
  {
    hide Reachable, StreamStep, StreamEnabled;
    if id in tab.listed {
      ListedIsOpen(tab.streams[id]);
    }
  }

  lemma SweepKeepsTable(tab: Table, swept: bool)
    requires TableInv(tab, swept)
    ensures TableInv(Sweep(tab), true)
  {
    hide Reachable, StreamStep, StreamEnabled;
    forall id | id in tab.streams
      ensures Reachable(Swept(tab, id)) && Swept(tab, id).Closed()
    {
      if id in tab.listed {
        ListedIsOpen(tab.streams[id]);
      }
    }
  }

  /** A report about an open stream always reaches it. */
  lemma ReportArrives(tab: Table, id: int, e: StreamEvent)
    requires TableInv(tab, false) && id in tab.open && NgReports(tab.streams[id], e)
    ensures id in tab.listed && StreamEnabled(tab.streams[id], e)
  {}

  lemma UserKeepsTable(s: Session, e: SessionEvent)
    requires TableInv(s.tab, s.swept) && UserEnabled(s, e)
    ensures TableInv(UserStep(s, e).tab, UserStep(s, e).swept)
  {
    hide Reachable, StreamStep, StreamEnabled, TableInv;
    match e
    case Half(id, h, _) => StepKeepsTable(s.tab, s.swept, id, h);
    case SubmitResponse(id) => StepKeepsTable(s.tab, s.swept, id, OnWrite(Submit(false)));
    case CreditSent(id, n) => StepKeepsTable(s.tab, s.swept, id, OnRead(Credit(n)));
    case SubmitRequest(id, window, hold) =>
      NewRequest(window, hold);
      RegisterKeepsTable(s.tab, s.swept, id, StreamStep(NewStream(window), OnWrite(Submit(hold))));
  }

  lemma NewRequest(window: int, hold: bool)
    ensures StreamEnabled(NewStream(window), OnWrite(Submit(hold)))
    ensures var x := StreamStep(NewStream(window), OnWrite(Submit(hold))); Reachable(x) && !x.Closed()
  {
    NewStreamReachable(window);
    StepKeepsReachable(NewStream(window), OnWrite(Submit(hold)));
  }

  lemma RecvKeepsTable(s: Session, e: SessionEvent)
    requires TableInv(s.tab, s.swept) && RecvEnabled(s, e)
    ensures TableInv(RecvStep(s, e).tab, RecvStep(s, e).swept)
  {
    hide Reachable, StreamStep, StreamEnabled, TableInv;
    match e
    case BeginHeaders(id, window) =>
      NewStreamReachable(window);
      RegisterKeepsTable(s.tab, s.swept, id, NewStream(window));
    case Callback(id, h) =>
      if id in s.tab.listed && StreamEnabled(s.tab.streams[id], h) {
        StepKeepsTable(s.tab, s.swept, id, h);
      }
    case WindowUpdate(id, delta) =>
      assert StreamEnabled(s.tab.streams[id], OnWrite(WindowChange(delta))) by { WindowAlways(s.tab.streams[id], delta); }
      StepKeepsTable(s.tab, s.swept, id, OnWrite(WindowChange(delta)));
    case NgClose(id) => CloseKeepsTable(s.tab, s.swept, id);
    case SlotFreed(id) => StepKeepsTable(s.tab, s.swept, id, OnWrite(Unhold));
    case _ =>
  }

  lemma WindowAlways(x: Stream, delta: int)
    ensures StreamEnabled(x, OnWrite(WindowChange(delta)))
  {}

  lemma SendKeepsTable(s: Session, e: SessionEvent)
    requires TableInv(s.tab, s.swept) && SendEnabled(s, e)
    ensures TableInv(SendStep(s, e).tab, SendStep(s, e).swept)
  {
    hide Reachable, StreamStep, StreamEnabled, TableInv;
    match e
    case SendHeaders(id, _) => StepKeepsTable(s.tab, s.swept, id, OnWrite(HeadersSent));
    case SendData(id, length, _) => StepKeepsTable(s.tab, s.swept, id, OnWrite(Pull(length)));
    case _ =>
  }

  // -------------------------------------------------------------------------------------- pump

  function Extra(p: Pump): seq<byte> {
    if p.pc.Writing? then p.pc.extra else []
  }

  /** The accumulator never overflows and never sleeps or leaves in an orderly way with anything in it;
      the socket has the bytes taken from nghttp2 up to what is still held. */
  ghost predicate PumpInv(p: Pump) {
    && |p.pending| <= CAPACITY
    && (p.pc.Asleep? <==> !p.ready.waiter.Nobody?)
    && (p.ready.waiter.Waiting? ==> !p.ready.isSet)
    && (p.pc.Asleep? || p.pc == Exited(false) ==> p.pending == [])
    && (p.pc.Writing? ==> p.pending + p.pc.extra != [])
    && (p.pc != Exited(true) ==> p.taken == p.socket + (p.pending + Extra(p)))
    && p.socket <= p.taken
  }

  lemma AcceptKeepsPump(p: Pump, chunk: seq<byte>)
    requires PumpInv(p) && p.pc.Pulling? && chunk != []
    ensures PumpInv(Accept(p, chunk))
  {
    assert p.pending + [] == p.pending;
    Assoc(p.socket, p.pending, chunk);
    assert (p.pending + chunk) + [] == p.pending + chunk;
  }

  lemma SocketKeepsPump(p: Pump, ok: bool, n: nat)
    requires PumpInv(p) && p.pc.Writing?
    ensures PumpInv(SocketDone(p, ok, n))
  {}

  lemma SendKeepsPump(s: Session, e: SessionEvent)
    requires PumpInv(s.pump) && SendEnabled(s, e)
    ensures PumpInv(SendStep(s, e).pump)
  {
    hide StreamStep, StreamEnabled, HasOutput;
    match e
    case SendHeaders(_, chunk) => AcceptKeepsPump(s.pump, chunk);
    case SendControl(chunk) => AcceptKeepsPump(s.pump, chunk);
    case SendGoaway(chunk) => AcceptKeepsPump(s.pump, chunk);
    case SendData(id, _, chunk) =>
      if s.tab.streams[id].wr.s.writePending {
        AcceptKeepsPump(s.pump, chunk);
      }
    case SocketWrote(ok, n) => SocketKeepsPump(s.pump, ok, n);
    case _ =>
  }

  // ------------------------------------------------------------------------------------ wakeup

  /** Nobody sleeps through work: while send_loop waits unsignalled, nghttp2 has nothing to send, or
      recv_loop is still parsing and will signal before it suspends. */
  ghost predicate WakeInv(s: Session) {
    s.pump.ready.waiter.Waiting? ==> s.recv.Parsing? || !HasOutput(s.tab, s.ng)
  }

  /** Once recv_loop is done, the GOAWAY is on its way and send_loop never waits unsignalled again. */
  ghost predicate ShutdownInv(s: Session) {
    s.recv.Done? ==> !s.ng.goaway.NoGoaway? && !s.pump.ready.waiter.Waiting?
  }

  /** A stream that can send no more than before brings no new output. */
  lemma PutStaysQuiet(tab: Table, ng: Ng, id: int, y: Stream)
    requires !HasOutput(tab, ng) && id in tab.streams
    requires Sendable(y, ng.connWindow) ==> Sendable(tab.streams[id], ng.connWindow)
    ensures !HasOutput(Put(tab, id, y), ng)
  {
    hide Sendable;
    assert forall i :: i in tab.open && i in tab.streams ==> !Sendable(tab.streams[i], ng.connWindow);
  }

  /** A half that does not call start_write() leaves the provider and the windows alone. */
  lemma QuietHalf(x: Stream, e: StreamEvent, connWindow: int)
    requires StreamEnabled(x, e) && IsHalf(e) && !Pokes(x, e)
    ensures Sendable(StreamStep(x, e), connWindow) == Sendable(x, connWindow)
  {}

  lemma UserKeepsWake(s: Session, e: SessionEvent)
    requires WakeInv(s) && ShutdownInv(s) && UserEnabled(s, e)
    ensures WakeInv(UserStep(s, e)) && ShutdownInv(UserStep(s, e))
  {
    hide StreamStep, StreamEnabled, HasOutput, Sendable, Consumes, IsHalf;
    match e
    case Half(id, h, _) =>
      var x := s.tab.streams[id];
      if !Pokes(x, h) && !HasOutput(s.tab, s.ng) {
        QuietHalf(x, h, s.ng.connWindow);
        PutStaysQuiet(s.tab, s.ng, id, StreamStep(x, h));
      }
    case CreditSent(id, n) =>
      var x := s.tab.streams[id];
      if !HasOutput(s.tab, s.ng) {
        CreditIsQuiet(x, n, s.ng.connWindow);
        PutStaysQuiet(s.tab, s.ng, id, StreamStep(x, OnRead(Credit(n))));
      }
    case _ =>
  }

  lemma CreditIsQuiet(x: Stream, n: nat, connWindow: int)
    requires StreamEnabled(x, OnRead(Credit(n)))
    ensures Sendable(StreamStep(x, OnRead(Credit(n))), connWindow) == Sendable(x, connWindow)
  {}

  lemma RecvKeepsWake(s: Session, e: SessionEvent)
    requires WakeInv(s) && ShutdownInv(s) && PumpInv(s.pump) && RecvEnabled(s, e)
    ensures WakeInv(RecvStep(s, e)) && ShutdownInv(RecvStep(s, e))
  {
    hide StreamStep, StreamEnabled, HasOutput;
  }

  lemma SendKeepsWake(s: Session, e: SessionEvent)
    requires WakeInv(s) && ShutdownInv(s) && PumpInv(s.pump) && SendEnabled(s, e)
    ensures WakeInv(SendStep(s, e)) && ShutdownInv(SendStep(s, e))
  {
    hide StreamStep, StreamEnabled;
  }

  // --------------------------------------------------------------------------- the whole session

  ghost predicate SessionInv(s: Session) {
    && TableInv(s.tab, s.swept) && PumpInv(s.pump) && WakeInv(s) && ShutdownInv(s)
    && (s.swept ==> s.recv.Done? && s.pump.pc.Exited?)
  }

  lemma UserKeepsRest(s: Session, e: SessionEvent)
    requires UserEnabled(s, e) && PumpInv(s.pump) && (s.swept ==> s.recv.Done? && s.pump.pc.Exited?)
    ensures var t := UserStep(s, e); PumpInv(t.pump) && (t.swept ==> t.recv.Done? && t.pump.pc.Exited?)
  {
    hide StreamStep, StreamEnabled, Pokes;
  }

  lemma RecvKeepsRest(s: Session, e: SessionEvent)
    requires RecvEnabled(s, e) && PumpInv(s.pump) && (s.swept ==> s.recv.Done? && s.pump.pc.Exited?)
    ensures var t := RecvStep(s, e); PumpInv(t.pump) && (t.swept ==> t.recv.Done? && t.pump.pc.Exited?)
  {
    hide StreamStep, StreamEnabled, NgReports;
  }

  lemma SendKeepsRest(s: Session, e: SessionEvent)
    requires SendEnabled(s, e) && PumpInv(s.pump) && (s.swept ==> s.recv.Done? && s.pump.pc.Exited?)
    ensures SendStep(s, e).swept ==> SendStep(s, e).recv.Done? && SendStep(s, e).pump.pc.Exited?
  {
    hide StreamStep, StreamEnabled, HasOutput;
  }

  lemma CancelAndEndKeep(s: Session, e: SessionEvent)
    requires SessionInv(s) && SessionEnabled(s, e) && (e.SendCancel? || e.RunEnds?)
    ensures SessionInv(SessionStep(s, e))
  {
    hide UserStep, RecvStep, SendStep, TableInv, Sweep, HasOutput;
    SweepKeepsTable(s.tab, s.swept);
  }

  lemma StepKeepsSessionInv(s: Session, e: SessionEvent)
    requires SessionInv(s) && SessionEnabled(s, e)
    ensures SessionInv(SessionStep(s, e))
  {
    hide UserEnabled, RecvEnabled, SendEnabled, UserStep, RecvStep, SendStep, TableInv, Sweep, HasOutput, PumpInv;
    if e.SendCancel? || e.RunEnds? {
      CancelAndEndKeep(s, e);
    } else if UserEnabled(s, e) {
      UserKeepsTable(s, e);
      UserKeepsWake(s, e);
      UserKeepsRest(s, e);
    } else if RecvEnabled(s, e) {
      RecvKeepsTable(s, e);
      RecvKeepsWake(s, e);
      RecvKeepsRest(s, e);
    } else {
      SendKeepsTable(s, e);
      SendKeepsPump(s, e);
      SendKeepsWake(s, e);
      SendKeepsRest(s, e);
    }
  }

  /** The invariant holds in every state of every run, with any number of streams. */
  lemma {:induction false} RunKeepsSessionInv(s: Session, run: seq<SessionEvent>)
    requires SessionInv(s) && SessionValid(s, run)
    ensures SessionInv(SessionRun(s, run))
    decreases |run|
  {
    hide SessionInv, SessionEnabled, SessionStep;
    if run != [] {
      StepKeepsSessionInv(s, run[0]);
      RunKeepsSessionInv(SessionStep(s, run[0]), run[1..]);
    }
  }

  lemma NewSessionInv(connWindow: int)
    ensures SessionInv(NewSession(connWindow))
  {}
}
