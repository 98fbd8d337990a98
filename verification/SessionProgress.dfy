/** How far send_loop gets: every step of it, and every step nghttp2 makes inside it, lowers a measure of
    the output left. */
module SessionProgress {
  import opened Bytes
  import opened Capy
  import opened ReadSide
  import opened WriteSide
  import opened StatusSide
  import opened StreamWorld
  import opened SessionModel
  import opened SessionInvariant
  import opened SessionTheorems

  // ----------------------------------------------------------------------------------- measure

  datatype Kind = IsHeld | HasHeaders | IsActive | IsPending

  predicate Is(k: Kind, x: Stream) {
    match k
    case IsHeld => x.wr.provider == Submitted(true)
    case HasHeaders => x.wr.provider == Submitted(false)
    case IsActive => x.wr.provider.Active?
    case IsPending => x.wr.s.writePending
  }

  function Ids(tab: Table, k: Kind): set<int> {
    set id | id in tab.open && id in tab.streams && Is(k, tab.streams[id])
  }

  function Weight(x: Stream): nat {
    3 * Bit(Is(IsHeld, x)) + 2 * Bit(Is(HasHeaders, x)) + Bit(Is(IsActive, x)) + Bit(Is(IsPending, x))
  }

  function StreamWork(tab: Table): nat {
    3 * |Ids(tab, IsHeld)| + 2 * |Ids(tab, HasHeaders)| + |Ids(tab, IsActive)| + |Ids(tab, IsPending)|
  }

  lemma PutIds(tab: Table, id: int, y: Stream, k: Kind)
    requires id in tab.streams
    ensures var n, m := |Ids(tab, k)|, |Ids(Put(tab, id, y), k)|;
            if id in tab.open then m == n - Bit(Is(k, tab.streams[id])) + Bit(Is(k, y)) else m == n
  {
    hide Is;
    var before, after := Ids(tab, k), Ids(Put(tab, id, y), k);
    if id in tab.open {
      var others := before - {id};
      assert before == if Is(k, tab.streams[id]) then others + {id} else others;
      assert after == if Is(k, y) then others + {id} else others;
    } else {
      assert after == before;
    }
  }

  lemma PutWork(tab: Table, id: int, y: Stream)
    requires id in tab.streams
    ensures if id in tab.open
            then StreamWork(Put(tab, id, y)) == StreamWork(tab) - Weight(tab.streams[id]) + Weight(y)
            else StreamWork(Put(tab, id, y)) == StreamWork(tab)
  {
    hide Is, Ids;
    PutIds(tab, id, y, IsHeld);
    PutIds(tab, id, y, HasHeaders);
    PutIds(tab, id, y, IsActive);
    PutIds(tab, id, y, IsPending);
  }

  lemma SubsetSize(a: set<int>, b: set<int>)
    requires a <= b
    ensures |a| <= |b|
  {
    assert b == a + (b - a);
  }

  lemma ForgetIds(tab: Table, open: set<int>, k: Kind)
    requires open <= tab.open
    ensures |Ids(tab.(open := open), k)| <= |Ids(tab, k)|
  {
    hide Is;
    SubsetSize(Ids(tab.(open := open), k), Ids(tab, k));
  }

  lemma RegisterIds(tab: Table, id: int, x: Stream, k: Kind)
    requires id !in tab.streams
    ensures |Ids(Register(tab, id, x), k)| <= |Ids(tab, k)| + Bit(Is(k, x))
  {
    hide Is;
    assert Ids(Register(tab, id, x), k) == Ids(tab, k) + if Is(k, x) then {id} else {};
  }

  /** What send_loop still has to do, not counting what others may yet add. */
  function Work(tab: Table, ng: Ng): nat {
    ng.control + Bit(ng.goaway.GoawayQueued?) + (if ng.connWindow > 0 then ng.connWindow else 0)
      + |tab.open| + StreamWork(tab)
  }

  function PumpRank(p: Pump): nat {
    match p.pc
    case Exited(_) => 0
    case Asleep => if p.ready.waiter.Posted? then 2 else 0
    case Writing(_) => 2
    case Pulling => if p.pending == [] then 1 else 3
  }

  function Rank(s: Session): nat {
    4 * Work(s.tab, s.ng) + PumpRank(s.pump)
  }

  // -------------------------------------------------------------------------- steps of send_loop

  predicate IsSend(e: SessionEvent) {
    || e.SendHeaders? || e.SendControl? || e.SendGoaway? || e.SendData? || e.SendDry? || e.SendFailed?
    || e.SocketWrote? || e.SendWoken?
  }

  /** A step of send_loop, or one that nghttp2 makes inside it. */
  predicate IsPump(e: SessionEvent) {
    IsSend(e) || e.NgClose? || e.SlotFreed?
  }

  lemma AcceptRank(p: Pump, chunk: seq<byte>)
    requires p.pc.Pulling?
    ensures PumpRank(Accept(p, chunk)) <= PumpRank(p) + 2
  {}

  /** What a call of the provider uses up: window, the pending write, or the provider's readiness. */
  lemma PullUses(w: WriteWorld, length: nat)
    requires WriteInv(w) && WriteEnabled(w, Pull(length))
    ensures var v := WriteStep(w, Pull(length));
            var moved := w.sendWindow - v.sendWindow;
            && 0 <= moved <= length && (v.provider.Active? || v.provider.Deferred? || v.provider.Finished?)
            && (v.s.writePending ==> w.s.writePending)
            && (moved > 0 || (w.s.writePending && !v.s.writePending) || !v.provider.Active?)
  {
    hide Flatten, LogInv, HandshakeInv;
    if w.s.writePending {
      PullMoves(w.s, length);
    }
  }

  lemma PullLowersWeight(x: Stream, length: nat)
    requires WriteInv(x.wr) && StreamEnabled(x, OnWrite(Pull(length)))
    ensures var y := StreamStep(x, OnWrite(Pull(length)));
            var moved := x.wr.sendWindow - y.wr.sendWindow;
            0 <= moved <= length && Weight(y) < Weight(x) + moved
  {
    hide WriteInv, WriteStep;
    PullUses(x.wr, length);
  }

  lemma DataLowersRank(s: Session, id: int, length: nat, chunk: seq<byte>)
    requires TableInv(s.tab, false) && SendEnabled(s, SendData(id, length, chunk))
    ensures var t := PullFrom(s, id, length, chunk); Rank(t) < Rank(s) && t.ng.connWindow <= s.ng.connWindow
  {
    hide TableInv, StreamInv, WriteInv, StreamStep, StreamEnabled, StreamWork, Weight, Accept, PumpRank;
    var x := s.tab.streams[id];
    OpenIsLive(s.tab, id);
    Sides(x);
    PullLowersWeight(x, length);
    PutWork(s.tab, id, StreamStep(x, OnWrite(Pull(length))));
    AcceptRank(s.pump, chunk);
  }

  lemma OpenIsLive(tab: Table, id: int)
    requires TableInv(tab, false) && id in tab.open
    ensures StreamInv(tab.streams[id]) && !tab.streams[id].Closed()
  {
    hide StreamInv;
  }

  lemma HeadersLowerWeight(x: Stream)
    requires StreamEnabled(x, OnWrite(HeadersSent))
    ensures Weight(StreamStep(x, OnWrite(HeadersSent))) < Weight(x)
  {}

  lemma HeadersLowerRank(s: Session, id: int, chunk: seq<byte>)
    requires SendEnabled(s, SendHeaders(id, chunk))
    ensures Rank(SendStep(s, SendHeaders(id, chunk))) < Rank(s)
  {
    hide StreamStep, StreamEnabled, StreamWork, Weight, Accept, PumpRank;
    var x := s.tab.streams[id];
    HeadersLowerWeight(x);
    PutWork(s.tab, id, StreamStep(x, OnWrite(HeadersSent)));
    AcceptRank(s.pump, chunk);
  }

  /** Every step of send_loop brings it nearer to its end or to its next wait. */
  lemma SendLowersRank(s: Session, e: SessionEvent)
    requires SessionInv(s) && SendEnabled(s, e)
    ensures var t := SendStep(s, e);
            Rank(t) < Rank(s) && t.ng.connWindow <= s.ng.connWindow && t.recv == s.recv
  {
    hide StreamStep, StreamEnabled, StreamWork, TableInv, HasOutput;
    match e
    case SendData(id, length, chunk) => DataLowersRank(s, id, length, chunk);
    case SendHeaders(id, chunk) => HeadersLowerRank(s, id, chunk);
    case SendControl(chunk) => AcceptRank(s.pump, chunk);
    case SendGoaway(chunk) => AcceptRank(s.pump, chunk);
    case _ =>
  }

  lemma CloseKeepsIds(tab: Table, id: int, k: Kind)
    requires id in tab.streams
    ensures |Ids(CloseStream(tab, id), k)| == |Ids(tab, k)|
  {
    assert Ids(CloseStream(tab, id), k) == Ids(tab, k);
  }

  lemma ClosingForgets(tab: Table, id: int, k: Kind)
    requires id in tab.streams
    ensures var t := CloseStream(tab, id); |Ids(t.(open := t.open - {id}), k)| <= |Ids(tab, k)|
  {
    hide CloseStream, Ids;
    CloseKeepsIds(tab, id, k);
    ForgetIds(CloseStream(tab, id), CloseStream(tab, id).open - {id}, k);
  }

  lemma CloseLowersRank(s: Session, id: int)
    requires RecvEnabled(s, NgClose(id))
    ensures Rank(RecvStep(s, NgClose(id))) < Rank(s)
  {
    hide Ids, StreamStep, StreamEnabled;
    ClosingForgets(s.tab, id, IsHeld);
    ClosingForgets(s.tab, id, HasHeaders);
    ClosingForgets(s.tab, id, IsActive);
    ClosingForgets(s.tab, id, IsPending);
    assert CloseStream(s.tab, id).open == s.tab.open;
    assert |s.tab.open - {id}| < |s.tab.open|;
  }

  lemma SlotLowersWeight(x: Stream)
    requires StreamEnabled(x, OnWrite(Unhold))
    ensures Weight(StreamStep(x, OnWrite(Unhold))) < Weight(x)
  {}

  lemma SlotLowersRank(s: Session, id: int)
    requires RecvEnabled(s, SlotFreed(id))
    ensures Rank(RecvStep(s, SlotFreed(id))) < Rank(s)
  {
    hide StreamStep, StreamEnabled, StreamWork, Weight, PumpRank;
    SlotLowersWeight(s.tab.streams[id]);
    PutWork(s.tab, id, StreamStep(s.tab.streams[id], OnWrite(Unhold)));
  }

  // ---------------------------------------------------------------------- steps of everyone else

  /** What one step of anyone else can add. */
  const EXTRA: nat := 18

  lemma HalfRaisesLittle(x: Stream, e: StreamEvent)
    requires StreamEnabled(x, e) && IsHalf(e)
    ensures Weight(StreamStep(x, e)) <= Weight(x) + 2
  {
    hide Drain, Flatten, Capped;
  }

  lemma ReadyRank(p: Pump, ready: AsyncEvent)
    ensures PumpRank(p.(ready := ready)) <= PumpRank(p) + 2
  {}

  lemma PutRank(s: Session, id: int, y: Stream, queued: nat, ready: AsyncEvent)
    requires id in s.tab.streams && Weight(y) <= Weight(s.tab.streams[id]) + 2 && queued <= 1
    ensures Rank(s.(tab := Put(s.tab, id, y), ng := s.ng.(control := s.ng.control + queued),
                    pump := s.pump.(ready := ready)))
            <= Rank(s) + EXTRA
  {
    hide StreamWork, Weight, PumpRank;
    PutWork(s.tab, id, y);
    ReadyRank(s.pump, ready);
  }

  lemma RegisterRank(s: Session, id: int, x: Stream, ready: AsyncEvent)
    requires id !in s.tab.streams && Weight(x) <= 3
    ensures Rank(s.(tab := Register(s.tab, id, x), pump := s.pump.(ready := ready))) <= Rank(s) + EXTRA
  {
    hide Ids, Is, PumpRank;
    RegisterIds(s.tab, id, x, IsHeld);
    RegisterIds(s.tab, id, x, HasHeaders);
    RegisterIds(s.tab, id, x, IsActive);
    RegisterIds(s.tab, id, x, IsPending);
    ReadyRank(s.pump, ready);
    assert |s.tab.open + {id}| <= |s.tab.open| + 1;
  }

  lemma SubmitWeight(x: Stream, hold: bool)
    requires StreamEnabled(x, OnWrite(Submit(hold)))
    ensures Weight(StreamStep(x, OnWrite(Submit(hold)))) == Weight(x) + if hold then 3 else 2
  {}

  lemma CreditWeight(x: Stream, n: nat)
    requires StreamEnabled(x, OnRead(Credit(n)))
    ensures Weight(StreamStep(x, OnRead(Credit(n)))) == Weight(x)
  {}

  lemma NewRequestWeight(window: int, hold: bool)
    ensures StreamEnabled(NewStream(window), OnWrite(Submit(hold)))
    ensures Weight(StreamStep(NewStream(window), OnWrite(Submit(hold)))) <= 3
  {}

  lemma UserRaisesRankLittle(s: Session, e: SessionEvent)
    requires UserEnabled(s, e)
    ensures Rank(UserStep(s, e)) <= Rank(s) + EXTRA && UserStep(s, e).recv == s.recv
  {
    hide StreamStep, StreamEnabled, Weight, Rank, Consumes, IsHalf, Register;
    match e
    case Half(id, h, queued) =>
      var x := s.tab.streams[id];
      HalfRaisesLittle(x, h);
      PutRank(s, id, StreamStep(x, h), queued, (if Pokes(x, h) then Poke(s.pump) else s.pump).ready);
    case SubmitResponse(id) =>
      SubmitWeight(s.tab.streams[id], false);
      PutRank(s, id, StreamStep(s.tab.streams[id], OnWrite(Submit(false))), 0, Poke(s.pump).ready);
    case CreditSent(id, n) =>
      CreditWeight(s.tab.streams[id], n);
      PutRank(s, id, StreamStep(s.tab.streams[id], OnRead(Credit(n))), 0, s.pump.ready);
    case SubmitRequest(id, window, hold) =>
      NewRequestWeight(window, hold);
      RegisterRank(s, id, StreamStep(NewStream(window), OnWrite(Submit(hold))), Poke(s.pump).ready);
  }

  lemma SweepKeepsIds(tab: Table, k: Kind)
    ensures Ids(Sweep(tab), k) == Ids(tab, k)
  {
    hide Flatten, Drain;
  }

  lemma SweepKeepsRank(s: Session)
    ensures Rank(s.(tab := Sweep(s.tab), swept := true)) == Rank(s)
  {
    hide Ids, PumpRank;
    SweepKeepsIds(s.tab, IsHeld);
    SweepKeepsIds(s.tab, HasHeaders);
    SweepKeepsIds(s.tab, IsActive);
    SweepKeepsIds(s.tab, IsPending);
  }

  lemma CancelRank(s: Session)
    ensures Rank(s.(pump := s.pump.(ready := s.pump.ready.Cancel()))) <= Rank(s) + EXTRA
  {
    hide PumpRank, Work;
    ReadyRank(s.pump, s.pump.ready.Cancel());
  }

  // ----------------------------------------------------------------------------------- every run

  lemma EventsAreDistinct(s: Session, e: SessionEvent)
    ensures IsSend(e) || e.SendCancel? || e.RunEnds? ==> !UserEnabled(s, e) && !RecvEnabled(s, e)
    ensures !IsSend(e) ==> !SendEnabled(s, e)
    ensures e.NgClose? || e.SlotFreed? ==> !UserEnabled(s, e)
  {
    hide HasOutput, StreamEnabled;
  }

  lemma PumpStep(s: Session, e: SessionEvent)
    requires SessionInv(s) && SessionEnabled(s, e) && IsPump(e)
    ensures var t := SessionStep(s, e);
            && Rank(t) < Rank(s) && t.ng.connWindow <= s.ng.connWindow && t.recv == s.recv
            && SessionInv(t)
  {
    EventsAreDistinct(s, e);
    StepKeepsSessionInv(s, e);
    hide Rank, UserEnabled, SendEnabled, UserStep, SendStep, SessionInv, StreamStep, StreamEnabled, CloseStream;
    if e.NgClose? {
      CloseLowersRank(s, e.id);
    } else if e.SlotFreed? {
      SlotLowersRank(s, e.id);
    } else {
      SendLowersRank(s, e);
    }
  }

  lemma OtherStep(s: Session, e: SessionEvent)
    requires SessionEnabled(s, e) && s.recv.Done? && !IsPump(e)
    ensures Rank(SessionStep(s, e)) <= Rank(s) + EXTRA && SessionStep(s, e).recv.Done?
  {
    EventsAreDistinct(s, e);
    assert UserEnabled(s, e) || e.SendCancel? || e.RunEnds?;
    hide Rank, UserEnabled, RecvEnabled, SendEnabled, UserStep, SendStep, RecvStep, Sweep;
    if e.SendCancel? {
      CancelRank(s);
    } else if e.RunEnds? {
      SweepKeepsRank(s);
    } else {
      UserRaisesRankLittle(s, e);
    }
  }

  function PumpSteps(run: seq<SessionEvent>): nat {
    if run == [] then 0 else Bit(IsPump(run[0])) + PumpSteps(run[1..])
  }

  lemma {:induction false} StepsAreBounded(s: Session, run: seq<SessionEvent>)
    requires SessionInv(s) && s.recv.Done? && SessionValid(s, run)
    ensures PumpSteps(run) + Rank(SessionRun(s, run)) <= Rank(s) + EXTRA * (|run| - PumpSteps(run))
    decreases |run|
  {
    hide SessionInv, Rank, SessionEnabled, SessionStep, IsPump;
    if run != [] {
      StepKeepsSessionInv(s, run[0]);
      if IsPump(run[0]) {
        PumpStep(s, run[0]);
      } else {
        OtherStep(s, run[0]);
      }
      StepsAreBounded(SessionStep(s, run[0]), run[1..]);
    }
  }

  /** Shutdown is bounded: in any run after recv_loop has finished, send_loop and nghttp2 inside it take no
      more steps than the output left when it began allows, plus a constant for each step of anyone
      else. */
  lemma ShutdownIsBounded(s: Session, run: seq<SessionEvent>)
    requires InSession(s) && s.recv.Done? && SessionValid(s, run)
    ensures PumpSteps(run) <= Rank(s) + EXTRA * (|run| - PumpSteps(run))
  {
    hide InSession, SessionInv, SessionValid, SessionRun, Rank;
    ReachedSessionInv(s);
    StepsAreBounded(s, run);
  }

  // ----------------------------------------------------------------------------- send_loop alone

  /** A step of send_loop, or of nghttp2 inside it, without an error. */
  predicate Orderly(e: SessionEvent) {
    IsPump(e) && e != SendFailed && !(e.SocketWrote? && !e.ok)
  }

  predicate OrderlyRun(run: seq<SessionEvent>) {
    forall i :: 0 <= i < |run| ==> Orderly(run[i])
  }

  ghost predicate CanGoOn(s: Session) {
    exists e :: Orderly(e) && SessionEnabled(s, e)
  }

  lemma SendableCanSend(x: Stream, connWindow: int)
    requires !x.Closed() && !x.wr.s.closed && Sendable(x, connWindow)
    ensures StreamEnabled(x, OnWrite(HeadersSent)) ||
            (StreamEnabled(x, OnWrite(Pull(1))) && connWindow >= 1)
  {}

  lemma LiveSides(x: Stream)
    requires StreamInv(x) && !x.Closed()
    ensures !x.wr.s.closed
  {
    hide ReadInv, WriteInv;
  }

  lemma OutputCanGoOut(s: Session) returns (e: SessionEvent)
    requires TableInv(s.tab, false) && Sending(s) && HasOutput(s.tab, s.ng)
    ensures SendEnabled(s, e) && Orderly(e)
  {
    hide StreamEnabled, TableInv, StreamInv, Sendable;
    if s.ng.control > 0 {
      e := SendControl([0]);
    } else if s.ng.goaway.GoawayQueued? {
      e := SendGoaway([0]);
    } else {
      var id :| id in s.tab.open && id in s.tab.streams && Sendable(s.tab.streams[id], s.ng.connWindow);
      OpenIsLive(s.tab, id);
      LiveSides(s.tab.streams[id]);
      SendableCanSend(s.tab.streams[id], s.ng.connWindow);
      e := if StreamEnabled(s.tab.streams[id], OnWrite(HeadersSent)) then SendHeaders(id, [0]) else SendData(id, 1, [0]);
    }
  }

  /** send_loop is never stuck: unless it waits unsignalled or has left, its next step is possible, and
      needs neither an error nor a cancellation. */
  lemma SendLoopCanStep(s: Session)
    requires SessionInv(s) && !s.pump.pc.Exited? && !s.recv.Parsing? && !s.pump.ready.waiter.Waiting?
    ensures CanGoOn(s)
  {
    hide HasOutput, TableInv;
    var e: SessionEvent;
    if s.pump.pc.Writing? {
      e := SocketWrote(true, 0);
    } else if s.pump.pc.Asleep? {
      e := SendWoken;
    } else if HasOutput(s.tab, s.ng) {
      e := OutputCanGoOut(s);
    } else {
      e := SendDry(false);
    }
    assert Orderly(e) && SendEnabled(s, e);
  }

  lemma ExitedStops(s: Session)
    requires SessionInv(s) && s.pump.pc.Exited? && !s.recv.Parsing?
    ensures !CanGoOn(s)
  {
    hide HasOutput, TableInv, StreamEnabled;
  }

  /** Nobody has stopped send_loop, and it does not wait in vain. */
  predicate Live(s: Session) {
    && !s.pump.pc.Exited? && !s.recv.Parsing?
    && (s.pump.pc.Asleep? ==> s.pump.ready.waiter == Posted(true))
  }

  /** An orderly step goes on, or found nghttp2 dry. */
  lemma OrderlyStep(s: Session, e: SessionEvent)
    requires SessionInv(s) && SessionEnabled(s, e) && Orderly(e)
    ensures var t := SessionStep(s, e);
            && (s.pump.pc != Exited(true) ==> t.pump.pc != Exited(true))
            && (Live(s) && !e.SendDry? ==> Live(t))
            && (e.SendDry? ==> !HasOutput(s.tab, s.ng) && t.tab == s.tab && t.ng == s.ng)
            && (e.SendDry? && s.ng.goaway.GoawaySent? ==> t.pump.pc.Writing? || t.pump.pc == Exited(false))
  {
    EventsAreDistinct(s, e);
    hide StreamStep, StreamEnabled, HasOutput, TableInv, CloseStream, UserEnabled, UserStep;
  }

  lemma {:induction false} PumpRun(s: Session, run: seq<SessionEvent>)
    requires SessionInv(s) && SessionValid(s, run) && OrderlyRun(run)
    ensures var t := SessionRun(s, run);
            && SessionInv(t) && t.recv == s.recv && t.ng.connWindow <= s.ng.connWindow
            && |run| + Rank(t) <= Rank(s)
            && (s.pump.pc != Exited(true) ==> t.pump.pc != Exited(true))
    decreases |run|
  {
    hide SessionInv, Rank, SessionEnabled, SessionStep, IsPump;
    if run != [] {
      PumpStep(s, run[0]);
      OrderlyStep(s, run[0]);
      PumpRun(SessionStep(s, run[0]), run[1..]);
    }
  }

  /** Everything has been said: the GOAWAY is out and nghttp2 has nothing left. */
  ghost predicate SaidAll(s: Session) {
    !HasOutput(s.tab, s.ng) && s.ng.goaway.GoawaySent?
  }

  lemma ShutdownStep(s: Session, e: SessionEvent)
    requires SessionInv(s) && s.recv.Done? && SessionEnabled(s, e) && Orderly(e) && Live(s)
    ensures Live(SessionStep(s, e)) || SaidAll(SessionStep(s, e))
  {
    OrderlyStep(s, e);
    hide SessionEnabled, SessionStep, TableInv;
    if e.SendDry? {
      PumpStep(s, e);
      assert !s.ng.goaway.GoawayQueued?;
    }
  }

  lemma {:induction false} ShutdownSaysAll(s: Session, run: seq<SessionEvent>)
    requires SessionInv(s) && s.recv.Done? && SessionValid(s, run) && OrderlyRun(run) && Live(s)
    ensures SessionRun(s, run).pump.pc.Exited? ==> SaidAll(SessionRun(s, run))
    decreases |run|
  {
    hide SessionInv, SessionEnabled, SessionStep, IsPump, SaidAll;
    if run != [] {
      var u := SessionStep(s, run[0]);
      PumpStep(s, run[0]);
      ShutdownStep(s, run[0]);
      if Live(u) {
        ShutdownSaysAll(u, run[1..]);
      } else {
        LeftForGood(s, run[0]);
        StaysLeft(u, run[1..]);
      }
    }
  }

  /** After recv_loop a step that does not go on has left. */
  lemma LeftForGood(s: Session, e: SessionEvent)
    requires SessionInv(s) && s.recv.Done? && SessionEnabled(s, e) && Orderly(e) && Live(s)
    requires !Live(SessionStep(s, e))
    ensures SessionStep(s, e).pump.pc.Exited? && SessionStep(s, e).recv.Done?
  {
    OrderlyStep(s, e);
    PumpStep(s, e);
    hide SessionEnabled, SessionStep, TableInv;
    assert e.SendDry? ==> !s.ng.goaway.GoawayQueued?;
  }

  lemma StaysLeft(s: Session, run: seq<SessionEvent>)
    requires SessionInv(s) && s.recv.Done? && s.pump.pc.Exited? && SessionValid(s, run) && OrderlyRun(run)
    ensures run == []
  {
    hide SessionInv, SessionEnabled, SessionStep, IsPump;
    ExitedStops(s);
  }

  lemma ExitedIsFlushed(s: Session)
    requires SessionInv(s) && s.pump.pc == Exited(false)
    ensures s.pump.socket == s.pump.taken
  {
    hide TableInv, HasOutput;
    var none: seq<byte> := [];
    assert none + none == none && s.pump.socket + none == s.pump.socket;
  }

  /** Shutdown succeeds, whatever nghttp2 chooses to send and in whatever pieces. Let recv_loop have
      finished, and let send_loop run alone on a socket that accepts its writes. It takes at most Rank
      steps, never fails, and goes on as long as it has not left; when it leaves, the socket has every
      byte nghttp2 handed over, and unless send_loop was cancelled the GOAWAY is out and nghttp2 has
      nothing more to send. */
  lemma ShutdownFinishes(s: Session, run: seq<SessionEvent>)
    requires InSession(s) && s.recv.Done? && s.pump.pc != Exited(true)
    requires SessionValid(s, run) && OrderlyRun(run)
    ensures var t := SessionRun(s, run);
            && |run| + Rank(t) <= Rank(s) && t.pump.pc != Exited(true)
            && (CanGoOn(t) <==> !t.pump.pc.Exited?)
            && (t.pump.pc.Exited? ==> t.pump.socket == t.pump.taken)
            && (t.pump.pc.Exited? && Live(s) ==> SaidAll(t))
  {
    hide InSession, SessionValid, SessionRun, Rank, CanGoOn, TableInv, PumpInv, WakeInv, SaidAll, OrderlyRun;
    ReachedSessionInv(s);
    PumpRun(s, run);
    var t := SessionRun(s, run);
    if t.pump.pc.Exited? {
      ExitedStops(t);
      ExitedIsFlushed(t);
      if Live(s) {
        ShutdownSaysAll(s, run);
      }
    } else {
      SendLoopCanStep(t);
    }
  }

  // ------------------------------------------------------------------------------ a waiting write

  /** A write waits on a stream whose provider nghttp2 may call as far as the stream is concerned. */
  predicate Waits(s: Session, id: int) {
    && OpenStream(s, id)
    && var wr := s.tab.streams[id].wr; wr.provider.Active? && wr.s.writePending && wr.sendWindow > 0
  }

  /** The step pulls from the stream or closes it. */
  predicate Concerns(e: SessionEvent, id: int) {
    (e.SendData? && e.id == id) || e == NgClose(id)
  }

  lemma NotDry(s: Session, id: int)
    requires Waits(s, id) && s.ng.connWindow > 0
    ensures HasOutput(s.tab, s.ng)
  {
    assert Sendable(s.tab.streams[id], s.ng.connWindow);
  }

  lemma OtherStreamsWait(s: Session, e: SessionEvent, id: int)
    requires SessionEnabled(s, e) && IsPump(e) && !Concerns(e, id) && Waits(s, id)
    ensures Waits(SessionStep(s, e), id)
  {
    EventsAreDistinct(s, e);
    assert !StreamEnabled(s.tab.streams[id], OnWrite(HeadersSent)) && !StreamEnabled(s.tab.streams[id], OnWrite(Unhold));
    hide StreamStep, StreamEnabled, HasOutput, UserEnabled, UserStep;
  }

  lemma {:induction false} WaitsOn(s: Session, run: seq<SessionEvent>, id: int)
    requires SessionInv(s) && SessionValid(s, run) && OrderlyRun(run) && Live(s) && Waits(s, id)
    requires forall i :: 0 <= i < |run| ==> !Concerns(run[i], id)
    requires SessionRun(s, run).ng.connWindow > 0
    ensures Live(SessionRun(s, run)) && Waits(SessionRun(s, run), id)
    decreases |run|
  {
    hide SessionInv, SessionEnabled, SessionStep, IsPump, Waits, HasOutput, Concerns;
    if run != [] {
      var u := SessionStep(s, run[0]);
      PumpRun(s, run);
      NotDry(s, id);
      OrderlyStep(s, run[0]);
      PumpStep(s, run[0]);
      OtherStreamsWait(s, run[0], id);
      WaitsOn(u, run[1..], id);
    }
  }

  lemma WaitingIsServable(s: Session, id: int)
    requires InSession(s) && !s.pump.pc.Exited? && !s.recv.Parsing? && s.pump.ready.waiter != Posted(false)
    requires MaySend(s, id) && s.tab.streams[id].wr.s.writePending
    ensures Live(s) && Waits(s, id)
  {
    ReachedSessionInv(s);
    if s.pump.ready.waiter.Waiting? {
      NoLostWakeup(s);
    }
    hide InSession, WakeInv, ShutdownInv, PumpInv;
    PendingIsActive(s.tab.streams[id]);
    assert PumpInv(s.pump);
    AwakeIsLive(s.pump);
  }

  lemma AwakeIsLive(p: Pump)
    requires PumpInv(p)
    ensures p.pc.Asleep? ==> p.ready.waiter.Waiting? || p.ready.waiter.Posted?
  {}

  lemma PendingIsActive(x: Stream)
    requires Reachable(x) && x.wr.s.writePending && (x.wr.provider.Active? || x.wr.provider.Deferred?)
    ensures x.wr.provider.Active?
  {
    hide ReadReached, WriteReached, ReadInv, CursorInv, LogInv;
  }

  lemma LiveCanStep(s: Session)
    requires SessionInv(s) && Live(s)
    ensures CanGoOn(s)
  {
    hide TableInv, WakeInv, ShutdownInv, CanGoOn;
    SendLoopCanStep(s);
  }

  /** A waiting write is served. Let a write wait on a stream that may send, and let send_loop run alone,
      neither stopped nor failing. While the connection window lasts and the stream has been neither
      pulled from nor closed, nghttp2 is never dry and send_loop can always go on; and it can do so for
      at most Rank steps. So every such run, kept up, pulls from the stream, sees it closed, or uses up
      the connection's window. */
  lemma PendingWriteIsServed(s: Session, run: seq<SessionEvent>, id: int)
    requires InSession(s) && !s.pump.pc.Exited? && !s.recv.Parsing? && s.pump.ready.waiter != Posted(false)
    requires MaySend(s, id) && s.tab.streams[id].wr.s.writePending
    requires SessionValid(s, run) && OrderlyRun(run)
    requires forall i :: 0 <= i < |run| ==> !Concerns(run[i], id)
    ensures |run| <= Rank(s)
    ensures var t := SessionRun(s, run);
            t.ng.connWindow > 0 ==>
              CanGoOn(t) && MaySend(t, id) && forall wants :: !SendEnabled(t, SendDry(wants))
  {
    hide InSession, SessionInv, SessionValid, SessionRun, Rank, CanGoOn, OrderlyRun, HasOutput, Concerns, StreamEnabled;
    ReachedSessionInv(s);
    WaitingIsServable(s, id);
    PumpRun(s, run);
    var t := SessionRun(s, run);
    if t.ng.connWindow > 0 {
      WaitsOn(s, run, id);
      NotDry(t, id);
      LiveCanStep(t);
    }
  }

  // ------------------------------------------------------------------------- a submitted message

  /** The stream's HEADERS are queued and may go out. */
  predicate Queued(s: Session, id: int) {
    OpenStream(s, id) && s.tab.streams[id].wr.provider == Submitted(false)
  }

  /** The step sends them or closes the stream. */
  predicate Releases(e: SessionEvent, id: int) {
    (e.SendHeaders? && e.id == id) || e == NgClose(id)
  }

  lemma QueuedIsOutput(s: Session, id: int)
    requires Queued(s, id)
    ensures HasOutput(s.tab, s.ng)
  {
    assert Sendable(s.tab.streams[id], s.ng.connWindow);
  }

  lemma OthersStayQueued(s: Session, e: SessionEvent, id: int)
    requires SessionEnabled(s, e) && IsPump(e) && !Releases(e, id) && Queued(s, id)
    ensures Queued(SessionStep(s, e), id)
  {
    EventsAreDistinct(s, e);
    assert !StreamEnabled(s.tab.streams[id], OnWrite(Unhold));
    assert forall n :: !StreamEnabled(s.tab.streams[id], OnWrite(Pull(n)));
    hide StreamStep, StreamEnabled, HasOutput, UserEnabled, UserStep;
  }

  lemma {:induction false} QueuedOn(s: Session, run: seq<SessionEvent>, id: int)
    requires SessionInv(s) && SessionValid(s, run) && OrderlyRun(run) && Live(s) && Queued(s, id)
    requires forall i :: 0 <= i < |run| ==> !Releases(run[i], id)
    ensures Live(SessionRun(s, run)) && Queued(SessionRun(s, run), id)
    decreases |run|
  {
    hide SessionInv, SessionEnabled, SessionStep, IsPump, Queued, HasOutput, Releases;
    if run != [] {
      QueuedIsOutput(s, id);
      OrderlyStep(s, run[0]);
      PumpStep(s, run[0]);
      OthersStayQueued(s, run[0], id);
      QueuedOn(SessionStep(s, run[0]), run[1..], id);
    }
  }

  /** A response, or a request that nghttp2 does not hold back. */
  predicate Submits(e: SessionEvent, id: int) {
    e == SubmitResponse(id) || (e.SubmitRequest? && e.id == id && !e.hold)
  }

  lemma SubmitQueues(s: Session, e: SessionEvent, id: int)
    requires PumpInv(s.pump) && SessionEnabled(s, e) && Submits(e, id)
    requires !s.pump.pc.Exited? && !s.recv.Parsing? && s.pump.ready.waiter != Posted(false)
    ensures Queued(SessionStep(s, e), id) && Live(SessionStep(s, e))
  {
    hide HasOutput;
  }

  /** What is submitted goes out. Let a response or a request be submitted, and let send_loop then run alone,
      neither stopped nor failing. Until the stream's HEADERS are sent or it is closed, nghttp2 is never
      dry and send_loop can always go on; and it can do so for at most Rank steps. */
  lemma SubmissionIsServed(s: Session, e: SessionEvent, run: seq<SessionEvent>, id: int)
    requires InSession(s) && !s.pump.pc.Exited? && !s.recv.Parsing? && s.pump.ready.waiter != Posted(false)
    requires SessionEnabled(s, e) && Submits(e, id)
    requires SessionValid(SessionStep(s, e), run) && OrderlyRun(run)
    requires forall i :: 0 <= i < |run| ==> !Releases(run[i], id)
    ensures |run| <= Rank(SessionStep(s, e))
    ensures var t := SessionRun(SessionStep(s, e), run); CanGoOn(t) && forall wants :: !SendEnabled(t, SendDry(wants))
  {
    hide InSession, SessionValid, SessionRun, SessionEnabled, SessionStep, Rank, CanGoOn, OrderlyRun, HasOutput;
    hide Releases, StreamEnabled, Queued, TableInv, WakeInv, ShutdownInv;
    ReachedSessionInv(s);
    SubmitQueues(s, e, id);
    var u := SessionStep(s, e);
    StepKeepsSessionInv(s, e);
    PumpRun(u, run);
    QueuedOn(u, run, id);
    var t := SessionRun(u, run);
    QueuedIsOutput(t, id);
    LiveCanStep(t);
  }

  // -------------------------------------------------------------------------- why the loops end

  predicate FailedWrite(run: seq<SessionEvent>) {
    exists i :: 0 <= i < |run| && run[i].SocketWrote? && !run[i].ok
  }

  /** send_loop has left in an orderly way, or will because it was cancelled. */
  predicate Leaving(p: Pump) {
    p.pc == Exited(false) || p.ready.waiter == Posted(false)
  }

  /** What the events of a run from `s` to `t` leave behind. */
  ghost predicate Ends(s: Session, run: seq<SessionEvent>, t: Session) {
    && (t.recv.Done? <==> s.recv.Done? || RecvEnded in run || RecvFailed in run)
    && (t.ng.goaway.NoGoaway? <==> s.ng.goaway.NoGoaway? && RecvEnded !in run && RecvFailed !in run)
    && (t.pump.pc == Exited(true) <==> s.pump.pc == Exited(true) || SendFailed in run || FailedWrite(run))
    && (Leaving(t.pump) ==> Leaving(s.pump) || SendDry(false) in run || SendCancel in run)
    && (t.swept <==> s.swept || RunEnds in run)
  }

  lemma OneFailedWrite(e: SessionEvent)
    ensures FailedWrite([e]) <==> e.SocketWrote? && !e.ok
  {
    assert [e][0] == e;
  }

  lemma UserEndsNothing(s: Session, e: SessionEvent)
    requires UserEnabled(s, e)
    ensures var t := UserStep(s, e);
            && t.recv == s.recv && t.ng.goaway == s.ng.goaway && t.pump.pc == s.pump.pc && t.swept == s.swept
            && (Leaving(t.pump) ==> Leaving(s.pump))
    ensures !e.RecvEnded? && !e.RecvFailed? && !e.SendFailed? && !e.SocketWrote? && !e.RunEnds?
  {
    hide StreamStep, StreamEnabled, Pokes, Consumes, IsHalf;
  }

  lemma RecvEnds(s: Session, e: SessionEvent)
    requires RecvEnabled(s, e)
    ensures var t := RecvStep(s, e);
            && (t.recv.Done? <==> s.recv.Done? || e.RecvEnded? || e.RecvFailed?)
            && (t.ng.goaway.NoGoaway? <==> s.ng.goaway.NoGoaway? && !e.RecvEnded? && !e.RecvFailed?)
            && t.pump.pc == s.pump.pc && t.swept == s.swept && (Leaving(t.pump) ==> Leaving(s.pump))
    ensures !e.SendFailed? && !e.SocketWrote? && !e.RunEnds?
  {
    hide StreamStep, StreamEnabled, NgReports;
  }

  lemma SendEnds(s: Session, e: SessionEvent)
    requires SendEnabled(s, e) && PumpInv(s.pump)
    ensures var t := SendStep(s, e);
            && t.recv == s.recv && (t.ng.goaway.NoGoaway? <==> s.ng.goaway.NoGoaway?) && t.swept == s.swept
            && (t.pump.pc == Exited(true) <==> s.pump.pc == Exited(true) || e.SendFailed? || (e.SocketWrote? && !e.ok))
            && (Leaving(t.pump) ==> Leaving(s.pump) || e == SendDry(false))
    ensures !e.RecvEnded? && !e.RecvFailed? && !e.RunEnds?
  {
    hide StreamStep, StreamEnabled, HasOutput;
  }

  lemma StepEnds(s: Session, e: SessionEvent)
    requires SessionInv(s) && SessionEnabled(s, e)
    ensures Ends(s, [e], SessionStep(s, e))
  {
    hide FailedWrite, UserEnabled, RecvEnabled, SendEnabled, UserStep, RecvStep, SendStep, TableInv, Sweep, HasOutput;
    OneFailedWrite(e);
    EventsAreDistinct(s, e);
    if e.SendCancel? || e.RunEnds? {
    } else if UserEnabled(s, e) {
      UserEndsNothing(s, e);
    } else if RecvEnabled(s, e) {
      RecvEnds(s, e);
    } else {
      SendEnds(s, e);
    }
  }

  lemma FailedWriteJoin(a: seq<SessionEvent>, b: seq<SessionEvent>)
    ensures FailedWrite(a + b) <==> FailedWrite(a) || FailedWrite(b)
  {
    if FailedWrite(a) {
      var i :| 0 <= i < |a| && a[i].SocketWrote? && !a[i].ok;
      assert (a + b)[i] == a[i];
    }
    if FailedWrite(b) {
      var i :| 0 <= i < |b| && b[i].SocketWrote? && !b[i].ok;
      assert (a + b)[|a| + i] == b[i];
    }
  }

  lemma EndsJoin(s: Session, e: SessionEvent, u: Session, later: seq<SessionEvent>, t: Session)
    requires Ends(s, [e], u) && Ends(u, later, t)
    ensures Ends(s, [e] + later, t)
  {
    hide FailedWrite, Leaving;
    FailedWriteJoin([e], later);
  }

  lemma {:induction false} RunEndsFor(s: Session, run: seq<SessionEvent>)
    requires SessionInv(s) && SessionValid(s, run)
    ensures Ends(s, run, SessionRun(s, run))
    decreases |run|
  {
    hide SessionInv, SessionEnabled, SessionStep, Leaving;
    if run != [] {
      var u := SessionStep(s, run[0]);
      StepEnds(s, run[0]);
      StepKeepsSessionInv(s, run[0]);
      RunEndsFor(u, run[1..]);
      EndsJoin(s, run[0], u, run[1..], SessionRun(u, run[1..]));
      assert [run[0]] + run[1..] == run;
    }
  }

  /** The loops end only for the reasons they should, over every run: recv_loop if and only if its read or
      nghttp2's parsing failed or nghttp2 wanted no more, and then the GOAWAY is on its way; send_loop in
      failure if and only if nghttp2 or the socket failed, and else only because nghttp2 wanted nothing
      more or it was cancelled. */
  lemma LoopsEndForCause(connWindow: int, run: seq<SessionEvent>)
    requires SessionValid(NewSession(connWindow), run)
    ensures var s := SessionRun(NewSession(connWindow), run);
            && (s.recv.Done? <==> RecvEnded in run || RecvFailed in run)
            && (s.recv.Done? <==> !s.ng.goaway.NoGoaway?)
            && (s.pump.pc == Exited(true) <==> SendFailed in run || FailedWrite(run))
            && (s.pump.pc == Exited(false) ==> SendDry(false) in run || SendCancel in run)
            && (s.swept <==> RunEnds in run)
  {
    hide SessionInv, SessionValid, SessionRun, FailedWrite;
    NewSessionInv(connWindow);
    RunEndsFor(NewSession(connWindow), run);
  }
}
