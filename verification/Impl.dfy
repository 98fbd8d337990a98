/** Stream and Session::Impl in the source's own form: objects whose methods update their fields in
    place, each proved to do what the read-, write- and status-side functions say. */
module Impl {
  import opened Bytes
  import opened Capy
  import opened ReadSide
  import opened WriteSide
  import opened StatusSide
  import H = Headers

  /** Calls into nghttp2 that change what it will send. */
  datatype NgCall = ConsumeStream(id: int, n: nat) | ResumeData(id: int)

  /** buffer_copy: as many bytes of `src` as fit into `dest` from position `at` on. */
  method BufferCopy(dest: array<byte>, at: nat, src: seq<byte>) returns (n: nat)
    requires at <= dest.Length
    modifies dest
    ensures n == Min(|src|, dest.Length - at)
    ensures dest[..at + n] == old(dest[..at]) + src[..n]
  {
    n := Min(|src|, dest.Length - at);
    for i := 0 to n
      invariant dest[..at + i] == old(dest[..at]) + src[..i]
    {
      dest[at + i] := src[i];
      assert dest[..at + i + 1] == dest[..at + i] + [src[i]];
    }
  }

  /** read_some's local Sink: the destination of a suspended read and how much it holds. */
  class Sink {
    const dest: array<byte>
    var copied: nat

    constructor (dest: array<byte>)
      ensures this.dest == dest && copied == 0
    {
      this.dest := dest;
      copied := 0;
    }

    ghost function Frame(): ReadFrame
      reads this, dest
      requires copied <= dest.Length
    {
      ReadFrame(dest.Length, dest[..copied])
    }

    method Put(data: seq<byte>) returns (n: nat)
      requires copied <= dest.Length
      modifies this, dest
      ensures copied <= dest.Length
      ensures n == Room(old(Frame()), |data|)
      ensures Frame() == old(Frame()).(got := old(Frame()).got + data[..n])
    {
      n := BufferCopy(dest, copied, data);
      copied := copied + n;
    }
  }

  /** What read_some returns; the bytes themselves are in the destination. */
  datatype ReadReturn = Count(n: nat) | Failed(error: Error) | Suspended

  /** `r` reports `outcome`, with its bytes at the front of what is in the destination. */
  ghost predicate Reports(r: ReadReturn, outcome: ReadOutcome, dest: seq<byte>) {
    match outcome
    case GotBytes(data) => r == Count(|data|) && data <= dest
    case ReadFailed(e) => r == Failed(e)
    case ReadSuspended => r == Suspended
  }

  /** A stream as its three sides see it. */
  datatype Views = Views(rd: ReadState, wr: WriteState, st: StatusState)

  function ClosedViews(v: Views): Views {
    Views(OnReadClose(v.rd), OnWriteClose(v.wr), OnStatusClose(v.st))
  }

  class Stream {
    const session: SessionImpl
    var id: int
    var closed: bool
    var status: Option<nat>
    var statusReady: AsyncEvent
    var path: string
    var contentLength: Option<nat>
    var headers: seq<H.Header>
    var chunks: Buffers
    var frontOffset: nat
    var readSink: Sink?
    var readEof: bool
    var readReady: AsyncEvent
    var pending: Buffers
    var cursor: Buffers
    var writeOffset: nat
    var writePending: bool
    var writeEofRequested: bool
    var writeDeferred: bool
    var writeProgress: AsyncEvent

    ghost function SinkObjects(): set<object>
      reads this
    {
      if readSink == null then {} else {readSink, readSink.dest}
    }

    ghost predicate Valid()
      reads this, SinkObjects()
    {
      && QueueShape(chunks, frontOffset)
      && (readSink != null ==> readSink.copied <= readSink.dest.Length)
    }

    ghost function ReadView(): ReadState
      reads this, SinkObjects()
      requires Valid()
    {
      ReadState(chunks, frontOffset, if readSink == null then None else Some(readSink.Frame()),
                readEof, closed, readReady)
    }

    ghost function WriteView(): WriteState
      reads this
    {
      WriteState(pending, cursor, writeOffset, writePending, writeEofRequested, writeDeferred, closed,
                 writeProgress)
    }

    ghost function StatusView(): StatusState
      reads this
    {
      StatusState(status, closed, statusReady)
    }

    ghost function View(): Views
      reads this, SinkObjects()
      requires Valid()
    {
      Views(ReadView(), WriteView(), StatusView())
    }

    ghost function HeaderView(): H.Captured
      reads this
    {
      H.Captured(path, status, contentLength, headers)
    }

    constructor (session: SessionImpl, id: int)
      ensures this.session == session && this.id == id
      ensures Valid() && readSink == null
      ensures View() == Views(NEW_READ_STATE, NEW_WRITE_STATE, NEW_STATUS_STATE)
      ensures HeaderView() == H.NOTHING
    {
      this.session, this.id := session, id;
      closed, status, statusReady := false, None, FRESH;
      path, contentLength, headers := "", None, [];
      chunks, frontOffset, readSink, readEof, readReady := [], 0, null, false, FRESH;
      pending, cursor, writeOffset := [], [], 0;
      writePending, writeEofRequested, writeDeferred, writeProgress := false, false, false, FRESH;
    }

    // ---------------------------------------------------------------------------- callbacks

    method OnData(data: seq<byte>)
      requires Valid()
      modifies this`chunks, this`readReady, SinkObjects()
      ensures Valid() && ReadView() == ReadSide.OnData(old(ReadView()), data)
    {
      var n := 0;
      if readSink != null {
        n := readSink.Put(data);
      }
      if n < |data| {
        QueuedAppend(chunks, frontOffset, data[n..]);
        chunks := chunks + [data[n..]];
      }
      readReady := readReady.Set();
    }

    method OnReadEof()
      requires Valid()
      modifies this`readEof, this`readReady
      ensures Valid() && ReadView() == ReadSide.OnReadEof(old(ReadView()))
    {
      readEof := true;
      readReady := readReady.Set();
    }

    method OnClose()
      requires Valid()
      modifies this`closed, this`readReady, this`writeProgress, this`statusReady
      ensures Valid() && View() == ClosedViews(old(View()))
    {
      closed := true;
      readReady := readReady.Set();
      writeProgress := writeProgress.Set();
      statusReady := statusReady.Set();
    }

    /** on_close() as one of several streams: the others stay as they are. */
    method CloseAmong(all: map<int, Stream>)
      requires forall i :: i in all ==> all[i].id == i && all[i].Valid()
      requires id in all && all[id] == this && Valid()
      modifies this`closed, this`readReady, this`writeProgress, this`statusReady
      ensures forall i :: i in all ==> all[i].Valid()
      ensures Valid() && View() == ClosedViews(old(View()))
      ensures forall i :: i in all && i != id ==> all[i].View() == old(all[i].View())
    {
      hide QueueShape, ClosedViews;
      OnClose();
      assert forall i :: i in all && i != id ==> all[i] != this;
    }

    method ProducerCallback(length: nat) returns (piece: Piece)
      modifies this`writeDeferred, this`cursor, this`writeOffset, this`writePending, this`writeProgress
      ensures PullReaction(WriteView(), piece) == Produce(old(WriteView()), length)
    {
      if !writePending {
        writeDeferred := true;
        return Deferring;
      }
      var copied := Gather(cursor, length);
      cursor := DropBytes(cursor, |copied|);
      writeOffset := writeOffset + |copied|;
      var eof := false;
      var fullyDrained := writeOffset == |Flatten(pending)|;
      if fullyDrained || !writeEofRequested {
        if writeEofRequested {
          eof := true;
        }
        writePending := false;
        writeProgress := writeProgress.Set();
      }
      return Piece(copied, eof);
    }

    // -------------------------------------------------------------------------------- reads

    method Consume(n: nat)
      modifies session`calls, session`writeReady
      ensures session.calls == old(session.calls) + [ConsumeStream(id, n)]
      ensures session.writeReady == old(session.writeReady).Set()
    {
      session.calls := session.calls + [ConsumeStream(id, n)];
      session.StartWrite();
    }

    /** The session hears of exactly the bytes a read returned, and is poked if there were any. */
    ghost predicate Told(outcome: ReadOutcome, calls: seq<NgCall>, ready: AsyncEvent)
      reads this`id, session`calls, session`writeReady
    {
      if outcome.GotBytes?
      then session.calls == calls + [ConsumeStream(id, |outcome.data|)] && session.writeReady == ready.Set()
      else session.calls == calls && session.writeReady == ready
    }

    /** read_some up to its first co_await. */
    method ReadBegin(dest: array<byte>) returns (r: ReadReturn)
      requires Valid() && readSink == null
      modifies this`chunks, this`frontOffset, this`readSink, this`readReady
      modifies dest, session`calls, session`writeReady
      ensures Valid() && ReadView() == BeginRead(old(ReadView()), dest.Length).state
      ensures Reports(r, BeginRead(old(ReadView()), dest.Length).outcome, dest[..])
      ensures Told(BeginRead(old(ReadView()), dest.Length).outcome, old(session.calls), old(session.writeReady))
      ensures r.Suspended? ==> readSink != null && fresh(readSink) && readSink.dest == dest
    {
      var total := DrainInto(dest);
      if total > 0 {
        Consume(total);
        return Count(total);
      }
      if readEof || closed {
        return Failed(EofError(readEof));
      }
      var sink := new Sink(dest);
      readSink := sink;
      readReady := readReady.Clear().Wait();
      return Suspended;
    }

    /** One turn of the draining loop: copy from the front chunk, and pop it once exhausted. */
    method DrainFront(dest: array<byte>, at: nat, ghost all: Drained) returns (total: nat)
      requires chunks != [] && at < dest.Length && Drains(all, dest[..at], chunks, frontOffset, dest.Length - at)
      modifies this`chunks, this`frontOffset, dest
      ensures at <= total <= dest.Length && Drains(all, dest[..total], chunks, frontOffset, dest.Length - total)
      ensures |chunks| < |old(chunks)| || (chunks == old(chunks) && at < total)
    {
      hide Drains;
      DrainsNext(all, dest[..at], chunks, frontOffset, dest.Length - at);
      var chunk := chunks[0];
      var n := BufferCopy(dest, at, chunk[frontOffset..]);
      frontOffset := frontOffset + n;
      total := at + n;
      if frontOffset == |chunk| {
        chunks := chunks[1..];
        frontOffset := 0;
      }
    }

    /** The draining loop: oldest chunk first. */
    method DrainInto(dest: array<byte>) returns (total: nat)
      requires Valid() && readSink == null
      modifies this`chunks, this`frontOffset, dest
      ensures QueueShape(chunks, frontOffset) && total <= dest.Length
      ensures Drain(old(chunks), old(frontOffset), dest.Length) == Drained(dest[..total], chunks, frontOffset)
    {
      hide QueueShape, Drain, Drains;
      ghost var all := Drain(chunks, frontOffset, dest.Length);
      DrainsFirst(chunks, frontOffset, dest.Length);
      total := 0;
      assert dest[..0] == [];
      while chunks != [] && total < dest.Length
        invariant total <= dest.Length && Drains(all, dest[..total], chunks, frontOffset, dest.Length - total)
        decreases |chunks|, dest.Length - total
      {
        total := DrainFront(dest, total, all);
      }
      DrainsLast(all, dest[..total], chunks, frontOffset, dest.Length - total);
    }

    /** read_some after a co_await; `sink` is the local of the suspended call. */
    method ReadResume(sink: Sink) returns (r: ReadReturn)
      requires Valid() && readSink == sink && readReady.waiter.Posted?
      modifies this`readSink, this`readReady, session`calls, session`writeReady
      ensures Valid() && ReadView() == ResumeRead(old(ReadView())).state
      ensures Reports(r, ResumeRead(old(ReadView())).outcome, sink.dest[..])
      ensures Told(ResumeRead(old(ReadView())).outcome, old(session.calls), old(session.writeReady))
      ensures r.Suspended? ==> readSink == sink
    {
      var ok := readReady.waiter.ok;
      readReady := readReady.Resumed();
      readSink := null;
      if sink.copied > 0 {
        Consume(sink.copied);
        return Count(sink.copied);
      }
      if !ok {
        return Failed(Canceled);
      }
      if readEof || closed {
        return Failed(EofError(readEof));
      }
      readSink := sink;
      readReady := readReady.Clear().Wait();
      return Suspended;
    }

    // ------------------------------------------------------------------------------- writes

    /** A deferred provider is resumed: nghttp2_session_resume_data. */
    method ResumeIfDeferred()
      modifies this`writeDeferred, session`calls
      ensures !writeDeferred
      ensures session.calls == old(session.calls) + if old(writeDeferred) then [ResumeData(id)] else []
    {
      if writeDeferred {
        writeDeferred := false;
        session.calls := session.calls + [ResumeData(id)];
      }
    }

    /** write_impl up to its co_await. */
    method WriteBegin(buffers: Buffers, eof: bool) returns (outcome: WriteOutcome)
      modifies this`pending, this`cursor, this`writeOffset, this`writeEofRequested, this`writePending
      modifies this`writeDeferred, this`writeProgress, session`calls, session`writeReady
      ensures WriteView() == BeginWrite(old(WriteView()), Capped(buffers), eof).state
      ensures outcome == BeginWrite(old(WriteView()), Capped(buffers), eof).outcome
      ensures session.calls == old(session.calls) +
                               if BeginWrite(old(WriteView()), Capped(buffers), eof).resumed then [ResumeData(id)] else []
      ensures session.writeReady == if outcome.WriteSuspended? then old(session.writeReady).Set()
                                    else old(session.writeReady)
    {
      hide Capped;
      if closed {
        return WriteDone(Some(Eof), 0);
      }
      pending := Capped(buffers);
      cursor := pending;
      writeOffset := 0;
      writeEofRequested := eof;
      writePending := true;
      ResumeIfDeferred();
      session.StartWrite();
      writeProgress := writeProgress.Clear().Wait();
      return WriteSuspended;
    }

    method WriteResume() returns (outcome: WriteOutcome)
      requires writeProgress.waiter.Posted?
      modifies this`writePending, this`writeProgress
      ensures WriteReaction(WriteView(), outcome, false) == ResumeWrite(old(WriteView()))
    {
      var ok := writeProgress.waiter.ok;
      writeProgress := writeProgress.Resumed();
      writePending := false;
      return WriteDone(if ok then None else Some(Canceled), writeOffset);
    }

    // ------------------------------------------------------------------------------- status

    method StatusArrives(code: nat)
      modifies this`status, this`statusReady
      ensures StatusView() == SetStatus(old(StatusView()), code)
    {
      status := AsStatus(code);
      statusReady := statusReady.Set();
    }

    /** on_header_callback: :path and :status go to their own fields, other pseudo-headers nowhere, every
        plain header to the list, and a well-formed content-length to its accessor too. */
    method OnHeader(name: string, value: string)
      modifies this`path, this`status, this`statusReady, this`contentLength, this`headers
      ensures HeaderView() == H.OnHeader(old(HeaderView()), (name, value))
      ensures StatusView() ==
              if name == ":status" then SetStatus(old(StatusView()), H.ParseStatus(value)) else old(StatusView())
    {
      if name == ":path" {
        path := value;
        return;
      }
      if name == ":status" {
        var code := H.ReadStatus(value);
        StatusArrives(code);
        return;
      }
      if H.IsPseudo(name) {
        return;
      }
      if name == "content-length" {
        var length := H.ReadContentLength(value);
        if length.Some? {
          contentLength := length;
        }
      }
      headers := headers + [(name, value)];
    }

    method StatusBegin() returns (outcome: StatusOutcome)
      modifies this`statusReady
      ensures StatusReaction(StatusView(), outcome) == BeginStatus(old(StatusView()))
    {
      if status.None? {
        statusReady := statusReady.Clear().Wait();
        return StatusSuspended;
      }
      return StatusIs(status.value);
    }

    method StatusResume() returns (outcome: StatusOutcome)
      requires statusReady.waiter.Posted?
      modifies this`statusReady
      ensures StatusReaction(StatusView(), outcome) == ResumeStatus(old(StatusView()), readEof)
    {
      var ok := statusReady.waiter.ok;
      statusReady := statusReady.Resumed();
      if !ok {
        return StatusFailed(Canceled);
      }
      if status.None? {
        return StatusFailed(EofError(readEof));
      }
      return StatusIs(status.value);
    }
  }

  class SessionImpl {
    var streams: map<int, Stream>
    var requestCounter: nat
    var writeReady: AsyncEvent
    var calls: seq<NgCall>

    /** Every listed stream is listed under its own id. */
    ghost predicate Listed()
      reads this, streams.Values
    {
      forall i :: i in streams ==> streams[i].id == i
    }

    constructor ()
      ensures streams == map[] && requestCounter == 0 && writeReady == FRESH && calls == []
    {
      streams, requestCounter, writeReady, calls := map[], 0, FRESH, [];
    }

    method StartWrite()
      modifies this`writeReady
      ensures writeReady == old(writeReady).Set()
    {
      writeReady := writeReady.Set();
    }

    /** unordered_map::emplace leaves an existing entry alone. */
    method CreateStream(id: int) returns (stream: Stream)
      requires Listed()
      modifies this`streams, this`requestCounter
      ensures fresh(stream) && stream.id == id && stream.session == this
      ensures stream.Valid() && stream.View() == Views(NEW_READ_STATE, NEW_WRITE_STATE, NEW_STATUS_STATE)
      ensures streams == if id in old(streams) then old(streams) else old(streams)[id := stream]
      ensures requestCounter == old(requestCounter) + 1 && Listed()
    {
      stream := new Stream(this, id);
      if id !in streams {
        streams := streams[id := stream];
      }
      requestCounter := requestCounter + 1;
    }

    /** submit_request around nghttp2's answer `realId`: a new stream gets its real id, is listed under
        it, and send_loop is woken; a wrong role or a refusal changes nothing. */
    method SubmitRequest(isClient: bool, realId: int) returns (stream: Option<Stream>)
      requires Listed()
      modifies this`streams, this`writeReady
      ensures stream.Some? <==> isClient && realId >= 0
      ensures stream.Some? ==>
                && fresh(stream.value) && stream.value.id == realId && stream.value.session == this
                && stream.value.Valid()
                && stream.value.View() == Views(NEW_READ_STATE, NEW_WRITE_STATE, NEW_STATUS_STATE)
                && streams == (if realId in old(streams) then old(streams) else old(streams)[realId := stream.value])
                && writeReady == old(writeReady).Set()
      ensures stream.None? ==> streams == old(streams) && writeReady == old(writeReady)
      ensures Listed()
    {
      if !isClient {
        return None;
      }
      var placeholder := new Stream(this, 0);
      if realId < 0 {
        return None;
      }
      placeholder.id := realId;
      if realId !in streams {
        streams := streams[realId := placeholder];
      }
      StartWrite();
      return Some(placeholder);
    }

    /** The stream is woken and forgotten; no other stream is touched. */
    method CloseStream(id: int)
      requires Listed() && (id in streams ==> streams[id].Valid())
      modifies this`streams, set i | i in streams && i == id :: streams[i]
      ensures streams == old(streams) - {id} && Listed()
      ensures id in old(streams) ==>
                var x := old(streams)[id]; x.Valid() && x.View() == ClosedViews(old(x.View()))
    {
      if id !in streams {
        return;
      }
      streams[id].OnClose();
      streams := streams - {id};
    }

    /** The end of run(): the table is emptied and every stream that was in it is closed. */
    method CloseAll()
      requires Listed() && (forall i :: i in streams ==> streams[i].Valid())
      modifies this`streams, streams.Values
      ensures streams == map[]
      ensures forall i :: i in old(streams) ==>
                var x := old(streams)[i]; x.Valid() && x.View() == ClosedViews(old(x.View()))
    {
      hide QueueShape, ClosedViews;
      var all := streams;
      streams := map[];
      CloseEach(all);
    }

    static method CloseEach(all: map<int, Stream>)
      requires forall i :: i in all ==> all[i].id == i && all[i].Valid()
      modifies all.Values
      ensures forall i :: i in all ==> all[i].Valid() && all[i].View() == ClosedViews(old(all[i].View()))
    {
      hide *;
      ghost var was := map i | i in all :: all[i].View();
      var left := all.Keys;
      while left != {}
        invariant left <= all.Keys
        invariant forall i :: i in all ==> all[i].id == i && all[i].Valid()
        invariant forall i :: i in left ==> all[i].View() == was[i]
        invariant forall i :: i in all && i !in left ==> all[i].View() == ClosedViews(was[i])
        decreases left
      {
        var i :| i in left;
        all[i].CloseAmong(all);
        left := left - {i};
      }
    }
  }
}
