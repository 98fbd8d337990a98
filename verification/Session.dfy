/** The session: any number of streams, the output pump send_loop, the input loop recv_loop, and as
    much of nghttp2 as decides when there is something to send. Each event is one stretch of code
    between two suspension points, or one callback inside nghttp2_session_mem_recv2. */
module SessionModel {
  import opened Bytes
  import opened Capy
  import opened ReadSide
  import opened WriteSide
  import opened StatusSide
  import opened StreamWorld

  /** What send_loop reserves for its accumulator. */
  const CAPACITY: nat := 1460

  /** Where send_loop is: asking nghttp2 for output, writing `pending` and a fresh chunk to the socket,
      waiting on `write_ready_`, or gone (`failed` if an error made it drop what it held). */
  datatype SendPc = Pulling | Writing(extra: seq<byte>) | Asleep | Exited(failed: bool)

  datatype RecvPc = Reading | Parsing | Done

  datatype Goaway = NoGoaway | GoawayQueued | GoawaySent

  /** `streams` are all stream objects, kept alive by their users; `listed` is the key set of
      `streams_`, `open` the streams nghttp2 considers open. */
  datatype Table = Table(streams: map<int, Stream>, listed: set<int>, open: set<int>)

  /** nghttp2's queue of frames other than DATA and the HEADERS of a stream of ours. */
  datatype Ng = Ng(control: nat, goaway: Goaway, connWindow: int)

  /** send_loop's accumulator, `write_ready_`, every byte taken from nghttp2 and every byte the
      socket accepted. */
  datatype Pump = Pump(pc: SendPc, pending: seq<byte>, ready: AsyncEvent,
                       taken: seq<byte>, socket: seq<byte>)

  datatype Session = Session(tab: Table, ng: Ng, pump: Pump, recv: RecvPc, swept: bool)

  function NewSession(connWindow: int): Session {
    Session(Table(map[], {}, {}), Ng(1, NoGoaway, connWindow), Pump(Pulling, [], FRESH, [], []), Reading, false)
  }

  datatype SessionEvent =
    // user code
    | Half(id: int, e: StreamEvent, queued: nat)
    | SubmitResponse(id: int) | SubmitRequest(id: int, window: int, hold: bool)
    // recv_loop
    | RecvInput | RecvParsed | RecvFailed | RecvEnded
    // callbacks and changes inside nghttp2
    | BeginHeaders(id: int, window: int) | Callback(id: int, e: StreamEvent)
    | NgClose(id: int) | NgQueue(frames: nat) | WindowUpdate(id: int, delta: int)
    | ConnWindowUpdate(delta: int) | SlotFreed(id: int) | CreditSent(id: int, amount: nat)
    // send_loop
    | SendHeaders(id: int, chunk: seq<byte>) | SendControl(chunk: seq<byte>)
    | SendGoaway(chunk: seq<byte>) | SendData(id: int, length: nat, chunk: seq<byte>)
    | SendDry(wants: bool) | SendFailed | SocketWrote(ok: bool, n: nat) | SendWoken | SendCancel
    // run(), after both loops
    | RunEnds

  // ------------------------------------------------------------------------------ nghttp2

  /** nghttp2 can serialise something for this stream now. */
  predicate Sendable(x: Stream, connWindow: int) {
    || x.wr.provider == Submitted(false)
    || (x.wr.provider.Active? && x.wr.sendWindow > 0 && connWindow > 0)
  }

  ghost predicate HasOutput(tab: Table, ng: Ng) {
    || ng.control > 0
    || ng.goaway.GoawayQueued?
    || exists id :: id in tab.open && id in tab.streams && Sendable(tab.streams[id], ng.connWindow)
  }

  function Terminate(ng: Ng): Ng {
    if ng.goaway.NoGoaway? then ng.(goaway := GoawayQueued) else ng
  }

  // -------------------------------------------------------------------------- streams and table

  function Put(tab: Table, id: int, x: Stream): Table {
    tab.(streams := tab.streams[id := x])
  }

  function Register(tab: Table, id: int, x: Stream): Table {
    Table(tab.streams[id := x], tab.listed + {id}, tab.open + {id})
  }

  /** What user code may do to a stream: begin, resume or be stopped in one of its coroutines. */
  predicate IsHalf(e: StreamEvent) {
    match e
    case OnRead(r) => r.ReadBegin? || r.ReadResume? || r.ReadCancel?
    case OnWrite(w) => w.WriteBegin? || w.WriteResume? || w.WriteCancel?
    case OnStatus(s) => s.StatusBegin? || s.StatusResume? || s.StatusCancel?
    case Close => false
  }

  /** The half hands bytes to a reader, so it calls consume(). */
  predicate Consumes(x: Stream, e: StreamEvent) {
    e.OnRead? && StreamEnabled(x, e) && ReadResult(x.rd, e.r).GotBytes?
  }

  /** The half calls start_write(): consume() does, and so does write_impl before it suspends. */
  predicate Pokes(x: Stream, e: StreamEvent) {
    Consumes(x, e) || (e.OnWrite? && e.w.WriteBegin? && !x.wr.s.closed)
  }

  /** What nghttp2 may report about a stream it considers open. */
  predicate NgReports(x: Stream, e: StreamEvent) {
    match e
    case OnRead(r) =>
      (match r
       case Data(bytes) => !x.rd.s.readEof && |bytes| <= x.rd.peerWindow
       case EndStream => !x.rd.s.readEof
       case _ => false)
    case OnStatus(s) => s.StatusHeader?
    case _ => false
  }

  /** A callback finds its stream in the table, or drops the report. */
  function Deliver(tab: Table, id: int, e: StreamEvent): Table
    requires id in tab.streams
  {
    if id in tab.listed && StreamEnabled(tab.streams[id], e)
    then Put(tab, id, StreamStep(tab.streams[id], e)) else tab
  }

  /** close_stream: wake the stream, then forget it. */
  function CloseStream(tab: Table, id: int): Table {
    if id !in tab.listed || id !in tab.streams then tab
    else
      var x := tab.streams[id];
      var y := if StreamEnabled(x, Close) then StreamStep(x, Close) else x;
      Put(tab, id, y).(listed := tab.listed - {id})
  }

  function Swept(tab: Table, id: int): Stream
    requires id in tab.streams
  {
    var x := tab.streams[id];
    if id in tab.listed && StreamEnabled(x, Close) then StreamStep(x, Close) else x
  }

  /** The end of run(): every stream still listed is closed and the table emptied. */
  function Sweep(tab: Table): Table {
    tab.(streams := map id | id in tab.streams :: Swept(tab, id), listed := {})
  }

  // ------------------------------------------------------------------------------------ pump

  function Poke(p: Pump): Pump {
    p.(ready := p.ready.Set())
  }

  /** send_loop receives a chunk: keep it if it fits, else write out everything with it. */
  function Accept(p: Pump, chunk: seq<byte>): Pump {
    var q := p.(taken := p.taken + chunk);
    if |p.pending| + |chunk| <= CAPACITY then q.(pending := p.pending + chunk)
    else q.(pc := Writing(chunk))
  }

  /** nghttp2 had nothing: flush, leave or go to sleep. */
  function RanDry(p: Pump, wants: bool): Pump {
    if |p.pending| > 0 then p.(pc := Writing([]))
    else if !wants then p.(pc := Exited(false))
    else p.(pc := Asleep, ready := p.ready.Clear().Wait())
  }

  function SocketDone(p: Pump, ok: bool, n: nat): Pump
    requires p.pc.Writing?
  {
    var bytes := p.pending + p.pc.extra;
    if ok then p.(pc := Pulling, pending := [], socket := p.socket + bytes)
    else p.(pc := Exited(true), pending := [], socket := p.socket + bytes[..Min(n, |bytes|)])
  }

  function Woken(p: Pump): Pump
    requires p.ready.waiter.Posted?
  {
    p.(pc := if p.ready.waiter.ok then Pulling else Exited(false), ready := p.ready.Resumed())
  }

  // ------------------------------------------------------------------------------------ steps

  /** send_loop is between two suspension points, inside nghttp2_session_mem_send2. */
  predicate Sending(s: Session) {
    s.pump.pc.Pulling? && !s.recv.Parsing?
  }

  predicate OpenStream(s: Session, id: int) {
    id in s.tab.open && id in s.tab.streams
  }

  predicate UserEnabled(s: Session, e: SessionEvent) {
    match e
    case Half(id, h, queued) =>
      && id in s.tab.streams && IsHalf(h) && StreamEnabled(s.tab.streams[id], h)
      && queued <= (if Consumes(s.tab.streams[id], h) then 1 else 0)
    case SubmitResponse(id) => OpenStream(s, id) && StreamEnabled(s.tab.streams[id], OnWrite(Submit(false)))
    case SubmitRequest(id, _, _) => id !in s.tab.streams
    case CreditSent(id, n) => id in s.tab.streams && StreamEnabled(s.tab.streams[id], OnRead(Credit(n)))
    case _ => false
  }

  predicate RecvEnabled(s: Session, e: SessionEvent) {
    match e
    case RecvInput => s.recv.Reading?
    case RecvEnded => s.recv.Reading?
    case RecvParsed => s.recv.Parsing?
    case RecvFailed => s.recv.Parsing?
    case BeginHeaders(id, _) => s.recv.Parsing? && id !in s.tab.streams
    case Callback(id, h) => s.recv.Parsing? && OpenStream(s, id) && NgReports(s.tab.streams[id], h)
    case NgQueue(_) => s.recv.Parsing?
    case WindowUpdate(id, _) => s.recv.Parsing? && OpenStream(s, id)
    case ConnWindowUpdate(_) => s.recv.Parsing?
    case NgClose(id) => (s.recv.Parsing? || Sending(s)) && OpenStream(s, id)
    case SlotFreed(id) =>
      && (s.recv.Parsing? || Sending(s)) && OpenStream(s, id)
      && StreamEnabled(s.tab.streams[id], OnWrite(Unhold))
    case _ => false
  }

  /** nghttp2 calls the provider only with a positive length within both windows; after its GOAWAY
      went out it wants neither to read nor to write. */
  ghost predicate SendEnabled(s: Session, e: SessionEvent) {
    match e
    case SendHeaders(id, chunk) =>
      Sending(s) && chunk != [] && OpenStream(s, id) && StreamEnabled(s.tab.streams[id], OnWrite(HeadersSent))
    case SendControl(chunk) => Sending(s) && chunk != [] && s.ng.control > 0
    case SendGoaway(chunk) => Sending(s) && chunk != [] && s.ng.goaway.GoawayQueued?
    case SendData(id, length, chunk) =>
      && Sending(s) && chunk != [] && OpenStream(s, id) && length <= s.ng.connWindow
      && StreamEnabled(s.tab.streams[id], OnWrite(Pull(length)))
    case SendDry(wants) => Sending(s) && !HasOutput(s.tab, s.ng) && (s.ng.goaway.GoawaySent? ==> !wants)
    case SendFailed => Sending(s)
    case SocketWrote(_, _) => s.pump.pc.Writing? && !s.recv.Parsing?
    case SendWoken => s.pump.ready.waiter.Posted? && !s.recv.Parsing?
    case _ => false
  }

  ghost predicate SessionEnabled(s: Session, e: SessionEvent) {
    || UserEnabled(s, e) || RecvEnabled(s, e) || SendEnabled(s, e)
    || (e.SendCancel? && s.pump.ready.waiter.Waiting?)
    || (e.RunEnds? && s.pump.pc.Exited? && s.recv.Done? && !s.swept)
  }

  function UserStep(s: Session, e: SessionEvent): Session
    requires UserEnabled(s, e)
  {
    match e
    case Half(id, h, queued) =>
      var x := s.tab.streams[id];
      s.(tab := Put(s.tab, id, StreamStep(x, h)), ng := s.ng.(control := s.ng.control + queued),
         pump := if Pokes(x, h) then Poke(s.pump) else s.pump)
    case SubmitResponse(id) =>
      s.(tab := Put(s.tab, id, StreamStep(s.tab.streams[id], OnWrite(Submit(false)))), pump := Poke(s.pump))
    case SubmitRequest(id, window, hold) =>
      s.(tab := Register(s.tab, id, StreamStep(NewStream(window), OnWrite(Submit(hold)))), pump := Poke(s.pump))
    case CreditSent(id, n) => s.(tab := Put(s.tab, id, StreamStep(s.tab.streams[id], OnRead(Credit(n)))))
  }

  function RecvStep(s: Session, e: SessionEvent): Session
    requires RecvEnabled(s, e)
  {
    match e
    case RecvInput => s.(recv := Parsing)
    case RecvParsed => s.(recv := Reading, pump := Poke(s.pump))
    case RecvFailed => s.(recv := Done, ng := Terminate(s.ng), pump := Poke(s.pump))
    case RecvEnded => s.(recv := Done, ng := Terminate(s.ng), pump := Poke(s.pump))
    case BeginHeaders(id, window) => s.(tab := Register(s.tab, id, NewStream(window)))
    case Callback(id, h) => s.(tab := Deliver(s.tab, id, h))
    case NgQueue(frames) => s.(ng := s.ng.(control := s.ng.control + frames))
    case WindowUpdate(id, delta) =>
      s.(tab := Put(s.tab, id, StreamStep(s.tab.streams[id], OnWrite(WindowChange(delta)))))
    case ConnWindowUpdate(delta) => s.(ng := s.ng.(connWindow := s.ng.connWindow + delta))
    case NgClose(id) =>
      var tab := CloseStream(s.tab, id);
      s.(tab := tab.(open := tab.open - {id}))
    case SlotFreed(id) => s.(tab := Put(s.tab, id, StreamStep(s.tab.streams[id], OnWrite(Unhold))))
  }

  function PullFrom(s: Session, id: int, length: nat, chunk: seq<byte>): Session
    requires id in s.tab.streams && StreamEnabled(s.tab.streams[id], OnWrite(Pull(length)))
  {
    var x := s.tab.streams[id];
    var y := StreamStep(x, OnWrite(Pull(length)));
    var moved := x.wr.sendWindow - y.wr.sendWindow;
    s.(tab := Put(s.tab, id, y), ng := s.ng.(connWindow := s.ng.connWindow - moved),
       pump := if x.wr.s.writePending then Accept(s.pump, chunk) else s.pump)
  }

  function SendStep(s: Session, e: SessionEvent): Session
    requires SendEnabled(s, e)
  {
    match e
    case SendHeaders(id, chunk) =>
      s.(tab := Put(s.tab, id, StreamStep(s.tab.streams[id], OnWrite(HeadersSent))), pump := Accept(s.pump, chunk))
    case SendControl(chunk) => s.(ng := s.ng.(control := s.ng.control - 1), pump := Accept(s.pump, chunk))
    case SendGoaway(chunk) => s.(ng := s.ng.(goaway := GoawaySent), pump := Accept(s.pump, chunk))
    case SendData(id, length, chunk) => PullFrom(s, id, length, chunk)
    case SendDry(wants) => s.(pump := RanDry(s.pump, wants))
    case SendFailed => s.(pump := s.pump.(pc := Exited(true)))
    case SocketWrote(ok, n) => s.(pump := SocketDone(s.pump, ok, n))
    case SendWoken => s.(pump := Woken(s.pump))
  }

  function SessionStep(s: Session, e: SessionEvent): Session
    requires SessionEnabled(s, e)
  {
    if e.SendCancel? then s.(pump := s.pump.(ready := s.pump.ready.Cancel()))
    else if e.RunEnds? then s.(tab := Sweep(s.tab), swept := true)
    else if UserEnabled(s, e) then UserStep(s, e)
    else if RecvEnabled(s, e) then RecvStep(s, e)
    else SendStep(s, e)
  }

  ghost predicate SessionValid(s: Session, run: seq<SessionEvent>)
    decreases |run|
  {
    run == [] || (SessionEnabled(s, run[0]) && SessionValid(SessionStep(s, run[0]), run[1..]))
  }

  ghost function SessionRun(s: Session, run: seq<SessionEvent>): Session
    requires SessionValid(s, run)
    decreases |run|
  {
    if run == [] then s else SessionRun(SessionStep(s, run[0]), run[1..])
  }
}
