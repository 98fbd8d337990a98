/** The read side of one HTTP/2 stream: a deque of chunks with a front offset, and the fast path that
    copies arriving DATA straight into the buffers of a parked read_some. The coroutine is cut at its
    co_await into a begin half and a resume half; what lies between two awaits is atomic. */
module ReadSide {
  import opened Bytes
  import opened Capy

  /** A suspended read_some: its destination's size, and what `Sink::put` has copied there. */
  datatype ReadFrame = ReadFrame(capacity: nat, got: seq<byte>)

  datatype ReadState = ReadState(chunks: Buffers, frontOffset: nat, sink: Option<ReadFrame>,
                                 readEof: bool, closed: bool, readReady: AsyncEvent)

  const NEW_READ_STATE := ReadState([], 0, None, false, false, FRESH)

  datatype ReadOutcome = GotBytes(data: seq<byte>) | ReadFailed(error: Error) | ReadSuspended

  /** The state a half leaves behind and its result. A result that carries bytes also means
      consume(): nghttp2_session_consume_stream of that many bytes, then start_write(). */
  datatype ReadReaction = ReadReaction(state: ReadState, outcome: ReadOutcome)

  /** Every queued chunk has bytes left, and only the front one can be partly taken. */
  ghost predicate QueueShape(chunks: Buffers, offset: nat) {
    && NonEmptyBuffers(chunks)
    && (chunks == [] ==> offset == 0)
    && (chunks != [] ==> offset < |chunks[0]|)
  }

  /** The bytes queued in `chunks`, from `offset` on. */
  function Queued(chunks: Buffers, offset: nat): seq<byte> {
    if chunks == [] then [] else chunks[0][Min(offset, |chunks[0]|)..] + Flatten(chunks[1..])
  }

  lemma QueueHasBytes(chunks: Buffers, offset: nat)
    requires QueueShape(chunks, offset)
    ensures chunks == [] <==> Queued(chunks, offset) == []
  {
    hide Flatten;
  }

  datatype Drained = Drained(taken: seq<byte>, chunks: Buffers, offset: nat)

  /** read_some's draining loop: the bytes taken and the queue left. */
  function Drain(chunks: Buffers, offset: nat, capacity: nat): Drained
    decreases |chunks|
  {
    if chunks == [] || capacity == 0 || |chunks[0]| < offset then Drained([], chunks, offset)
    else
      var n := Min(capacity, |chunks[0]| - offset);
      var taken := chunks[0][offset..offset + n];
      if offset + n < |chunks[0]| then Drained(taken, chunks, offset + n)
      else
        var rest := Drain(chunks[1..], 0, capacity - n);
        rest.(taken := taken + rest.taken)
  }

  lemma QueuedWhole(chunks: Buffers)
    ensures Queued(chunks, 0) == Flatten(chunks)
  {}

  /** `taken` is as much of the front of `q` as `capacity` allows, `left` the rest. */
  ghost predicate SplitAt(q: seq<byte>, capacity: nat, taken: seq<byte>, left: seq<byte>) {
    q == taken + left && |taken| == Min(capacity, |q|)
  }

  ghost predicate DrainIsFifo(chunks: Buffers, offset: nat, capacity: nat) {
    var r := Drain(chunks, offset, capacity);
    && QueueShape(r.chunks, r.offset)
    && SplitAt(Queued(chunks, offset), capacity, r.taken, Queued(r.chunks, r.offset))
  }

  lemma QueuedFront(chunks: Buffers, offset: nat)
    requires chunks != [] && offset <= |chunks[0]|
    ensures Queued(chunks, offset) == chunks[0][offset..] + Flatten(chunks[1..])
  {
    hide Flatten;
  }

  lemma DrainWithinFront(chunks: Buffers, offset: nat, capacity: nat)
    requires QueueShape(chunks, offset) && chunks != []
    requires 0 < capacity && offset + capacity < |chunks[0]|
    ensures DrainIsFifo(chunks, offset, capacity)
  {
    hide Flatten, Queued, NonEmptyBuffers;
    var taken, left := chunks[0][offset..offset + capacity], chunks[0][offset + capacity..];
    assert Drain(chunks, offset, capacity) == Drained(taken, chunks, offset + capacity);
    QueuedFront(chunks, offset);
    QueuedFront(chunks, offset + capacity);
    assert chunks[0][offset..] == taken + left;
    Assoc(taken, left, Flatten(chunks[1..]));
  }

  lemma DrainTakesFront(chunks: Buffers, offset: nat, capacity: nat)
    requires QueueShape(chunks, offset) && chunks != [] && |chunks[0]| <= offset + capacity
    ensures var rest := Drain(chunks[1..], 0, offset + capacity - |chunks[0]|);
            Drain(chunks, offset, capacity) == rest.(taken := chunks[0][offset..] + rest.taken)
  {
    hide NonEmptyBuffers;
    assert chunks[0][offset..|chunks[0]|] == chunks[0][offset..];
  }

  lemma SplitCons(front: seq<byte>, q: seq<byte>, capacity: nat, taken: seq<byte>, left: seq<byte>)
    requires SplitAt(q, capacity, taken, left)
    ensures SplitAt(front + q, |front| + capacity, front + taken, left)
  {
    Assoc(front, taken, left);
  }

  lemma DrainPastFront(chunks: Buffers, offset: nat, capacity: nat)
    requires QueueShape(chunks, offset) && chunks != [] && |chunks[0]| <= offset + capacity
    requires DrainIsFifo(chunks[1..], 0, offset + capacity - |chunks[0]|)
    ensures DrainIsFifo(chunks, offset, capacity)
  {
    hide Flatten, Queued, Drain, NonEmptyBuffers, SplitAt;
    var front, room := chunks[0][offset..], offset + capacity - |chunks[0]|;
    var rest := Drain(chunks[1..], 0, room);
    DrainTakesFront(chunks, offset, capacity);
    QueuedFront(chunks, offset);
    QueuedWhole(chunks[1..]);
    SplitCons(front, Flatten(chunks[1..]), room, rest.taken, Queued(rest.chunks, rest.offset));
  }

  lemma DrainsNothing(chunks: Buffers, offset: nat, capacity: nat)
    requires QueueShape(chunks, offset) && (chunks == [] || capacity == 0)
    ensures DrainIsFifo(chunks, offset, capacity)
  {
    hide Flatten, NonEmptyBuffers;
    assert [] + Queued(chunks, offset) == Queued(chunks, offset);
  }

  /** Draining takes exactly as much of the front of the queue as fits, and leaves the rest. */
  lemma {:induction false} DrainTakesPrefix(chunks: Buffers, offset: nat, capacity: nat)
    requires QueueShape(chunks, offset)
    ensures DrainIsFifo(chunks, offset, capacity)
    decreases |chunks|
  {
    hide DrainIsFifo, Drain, Queued, Flatten;
    if chunks == [] || capacity == 0 {
      DrainsNothing(chunks, offset, capacity);
    } else if offset + capacity < |chunks[0]| {
      DrainWithinFront(chunks, offset, capacity);
    } else {
      DrainTakesPrefix(chunks[1..], 0, offset + capacity - |chunks[0]|);
      DrainPastFront(chunks, offset, capacity);
    }
  }

  /** One turn of the loop: copy from the front chunk, pop it once exhausted, go on with the rest. */
  lemma DrainStep(chunks: Buffers, offset: nat, room: nat)
    requires QueueShape(chunks, offset) && chunks != [] && room > 0
    ensures var n := Min(room, |chunks[0]| - offset);
            var popped := offset + n == |chunks[0]|;
            var rest, off := if popped then chunks[1..] else chunks, if popped then 0 else offset + n;
            var d := Drain(rest, off, room - n);
            && QueueShape(rest, off)
            && Drain(chunks, offset, room) == d.(taken := chunks[0][offset..][..n] + d.taken)
  {
    var n := Min(room, |chunks[0]| - offset);
    assert chunks[0][offset..][..n] == chunks[0][offset..offset + n];
    if offset + n < |chunks[0]| {
      assert chunks[0][offset..offset + n] + [] == chunks[0][offset..offset + n];
    }
  }

  /** With `taken` behind it and this queue and room before it, the draining loop will end up with `all`. */
  ghost predicate Drains(all: Drained, taken: seq<byte>, chunks: Buffers, offset: nat, room: nat) {
    var d := Drain(chunks, offset, room);
    QueueShape(chunks, offset) && all == d.(taken := taken + d.taken)
  }

  lemma DrainsFirst(chunks: Buffers, offset: nat, room: nat)
    requires QueueShape(chunks, offset)
    ensures Drains(Drain(chunks, offset, room), [], chunks, offset, room)
  {
    hide Drain, QueueShape;
    var d := Drain(chunks, offset, room);
    assert [] + d.taken == d.taken;
  }

  lemma DrainsNext(all: Drained, taken: seq<byte>, chunks: Buffers, offset: nat, room: nat)
    requires Drains(all, taken, chunks, offset, room) && chunks != [] && room > 0
    ensures offset < |chunks[0]|
    ensures var n := Min(room, |chunks[0]| - offset);
            var popped := offset + n == |chunks[0]|;
            Drains(all, taken + chunks[0][offset..][..n], if popped then chunks[1..] else chunks,
                   if popped then 0 else offset + n, room - n)
  {
    hide Drain, NonEmptyBuffers;
    DrainStep(chunks, offset, room);
    var n := Min(room, |chunks[0]| - offset);
    var popped := offset + n == |chunks[0]|;
    var d := Drain(if popped then chunks[1..] else chunks, if popped then 0 else offset + n, room - n);
    Assoc(taken, chunks[0][offset..][..n], d.taken);
  }

  lemma DrainsLast(all: Drained, taken: seq<byte>, chunks: Buffers, offset: nat, room: nat)
    requires Drains(all, taken, chunks, offset, room) && (chunks == [] || room == 0)
    ensures QueueShape(chunks, offset) && all == Drained(taken, chunks, offset)
  {
    hide QueueShape;
    assert taken + [] == taken;
  }

  function ParkReader(s: ReadState, frame: ReadFrame): ReadState {
    s.(sink := Some(frame), readReady := s.readReady.Clear().Wait())
  }

  function BeginRead(s: ReadState, capacity: nat): ReadReaction {
    var d := Drain(s.chunks, s.frontOffset, capacity);
    var s1 := s.(chunks := d.chunks, frontOffset := d.offset);
    if |d.taken| > 0 then ReadReaction(s1, GotBytes(d.taken))
    else if s.readEof || s.closed then ReadReaction(s1, ReadFailed(EofError(s.readEof)))
    else ReadReaction(ParkReader(s1, ReadFrame(capacity, [])), ReadSuspended)
  }

  function ResumeRead(s: ReadState): ReadReaction
    requires s.sink.Some? && s.readReady.waiter.Posted?
  {
    var frame := s.sink.value;
    var s1 := s.(sink := None, readReady := s.readReady.Resumed());
    if |frame.got| > 0 then ReadReaction(s1, GotBytes(frame.got))
    else if !s.readReady.waiter.ok then ReadReaction(s1, ReadFailed(Canceled))
    else if s.readEof || s.closed then ReadReaction(s1, ReadFailed(EofError(s.readEof)))
    else ReadReaction(ParkReader(s1, frame), ReadSuspended)
  }

  /** How many of `len` arriving bytes the destination of a suspended read takes. */
  function Room(frame: ReadFrame, len: nat): (n: nat)
    ensures n <= len
  {
    if |frame.got| <= frame.capacity then Min(len, frame.capacity - |frame.got|) else 0
  }

  function OnData(s: ReadState, data: seq<byte>): ReadState {
    var n := if s.sink.Some? then Room(s.sink.value, |data|) else 0;
    s.(sink := if s.sink.Some? then Some(s.sink.value.(got := s.sink.value.got + data[..n])) else None,
       chunks := if n < |data| then s.chunks + [data[n..]] else s.chunks,
       readReady := s.readReady.Set())
  }

  function OnReadEof(s: ReadState): ReadState {
    s.(readEof := true, readReady := s.readReady.Set())
  }

  function OnReadClose(s: ReadState): ReadState {
    s.(closed := true, readReady := s.readReady.Set())
  }

  // -------------------------------------------------------------------------------------- runs

  /** SETTINGS_INITIAL_WINDOW_SIZE, as run() submits it. */
  const WINDOW_SIZE: nat := 1024 * 1024

  /** The read side with nghttp2's view of it (the room the peer has left, the bytes nghttp2 was told
      are consumed, the part of those it has turned into credit) and a log of what went through. */
  datatype ReadWorld = ReadWorld(s: ReadState, peerWindow: int, consumed: nat, credited: nat,
                                 received: seq<byte>, returned: seq<byte>)

  const NEW_READ_WORLD := ReadWorld(NEW_READ_STATE, WINDOW_SIZE, 0, 0, [], [])

  datatype ReadEvent =
    | ReadBegin(capacity: nat) | ReadResume | ReadCancel
    | Data(bytes: seq<byte>) | EndStream | ReadClose | Credit(amount: nat)

  /** The environment's contract: at most one read outstanding; no callback for a closed stream;
      nothing after END_STREAM or past the window; credit only for consumed bytes. */
  predicate ReadEnabled(w: ReadWorld, e: ReadEvent) {
    match e
    case ReadBegin(_) => w.s.readReady.waiter.Nobody?
    case ReadResume => w.s.readReady.waiter.Posted? && w.s.sink.Some?
    case ReadCancel => w.s.readReady.waiter.Waiting?
    case Data(bytes) => !w.s.closed && !w.s.readEof && |bytes| <= w.peerWindow
    case EndStream => !w.s.closed && !w.s.readEof
    case ReadClose => !w.s.closed
    case Credit(n) => w.credited + n <= w.consumed
  }

  function Returned(w: ReadWorld, r: ReadReaction): ReadWorld {
    var data := if r.outcome.GotBytes? then r.outcome.data else [];
    w.(s := r.state, consumed := w.consumed + |data|, returned := w.returned + data)
  }

  function ReadStep(w: ReadWorld, e: ReadEvent): ReadWorld
    requires ReadEnabled(w, e)
  {
    match e
    case ReadBegin(capacity) => Returned(w, BeginRead(w.s, capacity))
    case ReadResume => Returned(w, ResumeRead(w.s))
    case ReadCancel => w.(s := w.s.(readReady := w.s.readReady.Cancel()))
    case Data(bytes) =>
      w.(s := OnData(w.s, bytes), peerWindow := w.peerWindow - |bytes|, received := w.received + bytes)
    case EndStream => w.(s := OnReadEof(w.s))
    case ReadClose => w.(s := OnReadClose(w.s))
    case Credit(n) => w.(credited := w.credited + n, peerWindow := w.peerWindow + n)
  }

  /** What the caller of read_some sees at this step. */
  function ReadResult(w: ReadWorld, e: ReadEvent): ReadOutcome
    requires ReadEnabled(w, e)
  {
    match e
    case ReadBegin(capacity) => BeginRead(w.s, capacity).outcome
    case ReadResume => ResumeRead(w.s).outcome
    case _ => ReadSuspended
  }

  predicate ReadValid(w: ReadWorld, run: seq<ReadEvent>)
    decreases |run|
  {
    run == [] || (ReadEnabled(w, run[0]) && ReadValid(ReadStep(w, run[0]), run[1..]))
  }

  function ReadRun(w: ReadWorld, run: seq<ReadEvent>): ReadWorld
    requires ReadValid(w, run)
    decreases |run|
  {
    if run == [] then w else ReadRun(ReadStep(w, run[0]), run[1..])
  }

  // --------------------------------------------------------------------------------- invariant

  /** Bytes that arrived and no reader has been handed yet. */
  function Backlog(s: ReadState): seq<byte> {
    var queued := Queued(s.chunks, s.frontOffset);
    if s.sink.Some? then s.sink.value.got + queued else queued
  }

  /** A suspended reader never overflows, bytes queue up behind it only once it is full, and while its
      wait has not been ended nothing at all has happened that it should know of. */
  ghost predicate FrameInv(s: ReadState, f: ReadFrame) {
    && |f.got| <= f.capacity
    && (s.chunks != [] ==> |f.got| == f.capacity)
    && (s.readReady.waiter.Waiting? ==> f.got == [] && !s.readEof && !s.closed && !s.readReady.isSet)
  }

  ghost predicate ReadStateInv(s: ReadState) {
    && QueueShape(s.chunks, s.frontOffset)
    && (s.sink.Some? <==> !s.readReady.waiter.Nobody?)
    && (s.sink.Some? ==> FrameInv(s, s.sink.value))
  }

  ghost predicate FlowInv(w: ReadWorld, backlog: seq<byte>) {
    && w.received == w.returned + backlog
    && w.consumed == |w.returned|
    && w.credited <= w.consumed
    && w.peerWindow == WINDOW_SIZE - |w.received| + w.credited
    && 0 <= w.peerWindow
  }

  ghost predicate ReadInv(w: ReadWorld) {
    ReadStateInv(w.s) && FlowInv(w, Backlog(w.s))
  }

  lemma QueuedAppend(chunks: Buffers, offset: nat, more: seq<byte>)
    requires QueueShape(chunks, offset) && |more| > 0
    ensures QueueShape(chunks + [more], offset)
    ensures Queued(chunks + [more], offset) == Queued(chunks, offset) + more
  {
    if chunks == [] {
      assert (chunks + [more])[1..] == [];
    } else {
      assert (chunks + [more])[1..] == chunks[1..] + [more];
      FlattenAppend(chunks[1..], more);
    }
  }

  /** However the arriving bytes are split between the sink and the queue, they go at the end. */
  lemma DataAppends(s: ReadState, data: seq<byte>)
    requires ReadStateInv(s)
    ensures ReadStateInv(OnData(s, data)) && Backlog(OnData(s, data)) == Backlog(s) + data
  {
    var n := if s.sink.Some? then Room(s.sink.value, |data|) else 0;
    var t, q := OnData(s, data), Queued(s.chunks, s.frontOffset);
    assert Queued(t.chunks, t.frontOffset) == q + data[n..] && QueueShape(t.chunks, t.frontOffset) by {
      if n < |data| {
        QueuedAppend(s.chunks, s.frontOffset, data[n..]);
      }
    }
    if s.sink.Some? {
      var got := s.sink.value.got;
      assert n == 0 || q == [];
      assert (got + data[..n]) + (q + data[n..]) == (got + q) + data;
    } else {
      assert data[n..] == data;
    }
  }

  /** A half that ends with bytes took as much of the backlog's front as it had room for; one that
      ends without any left the backlog alone, because there was no room or no byte. */
  ghost predicate Serves(backlog: seq<byte>, capacity: nat, outcome: ReadOutcome, left: seq<byte>) {
    if outcome.GotBytes? then SplitAt(backlog, capacity, outcome.data, left)
    else left == backlog && (capacity == 0 || backlog == [])
  }

  lemma BeginReadTakes(s: ReadState, capacity: nat)
    requires ReadStateInv(s) && s.readReady.waiter.Nobody?
    ensures var r := BeginRead(s, capacity);
            ReadStateInv(r.state) && Serves(Backlog(s), capacity, r.outcome, Backlog(r.state))
  {
    hide Drain, Queued, Flatten, QueueShape;
    DrainTakesPrefix(s.chunks, s.frontOffset, capacity);
    var d := Drain(s.chunks, s.frontOffset, capacity);
    var q, left := Queued(s.chunks, s.frontOffset), Queued(d.chunks, d.offset);
    QueueHasBytes(d.chunks, d.offset);
    if |d.taken| == 0 {
      assert left == q && (capacity == 0 || |q| == 0);
      assert [] + left == left;
    }
  }

  lemma ResumeReadTakes(s: ReadState)
    requires ReadStateInv(s) && s.readReady.waiter.Posted? && s.sink.Some?
    ensures var r := ResumeRead(s);
            && ReadStateInv(r.state)
            && Serves(Backlog(s), s.sink.value.capacity, r.outcome, Backlog(r.state))
  {
    hide Flatten, QueueShape, Queued;
    var got, queued := s.sink.value.got, Queued(s.chunks, s.frontOffset);
    QueueHasBytes(s.chunks, s.frontOffset);
    assert got == [] ==> got + queued == queued;
  }

  lemma TakeKeepsFlowInv(w: ReadWorld, r: ReadReaction, backlog: seq<byte>, left: seq<byte>)
    requires FlowInv(w, backlog)
    requires backlog == if r.outcome.GotBytes? then r.outcome.data + left else left
    ensures FlowInv(Returned(w, r), left)
  {
    if r.outcome.GotBytes? {
      Assoc(w.returned, r.outcome.data, left);
    }
  }

  lemma TakeKeepsReadInv(w: ReadWorld, r: ReadReaction, capacity: nat)
    requires FlowInv(w, Backlog(w.s)) && ReadStateInv(r.state)
    requires Serves(Backlog(w.s), capacity, r.outcome, Backlog(r.state))
    ensures ReadInv(Returned(w, r))
  {
    hide Backlog, ReadStateInv, FlowInv;
    TakeKeepsFlowInv(w, r, Backlog(w.s), Backlog(r.state));
  }

  lemma BeginKeepsReadInv(w: ReadWorld, capacity: nat)
    requires ReadInv(w) && ReadEnabled(w, ReadBegin(capacity))
    ensures ReadInv(ReadStep(w, ReadBegin(capacity)))
  {
    hide Backlog, ReadStateInv, BeginRead, FlowInv, Serves, Returned;
    BeginReadTakes(w.s, capacity);
    TakeKeepsReadInv(w, BeginRead(w.s, capacity), capacity);
  }

  lemma ResumeKeepsReadInv(w: ReadWorld)
    requires ReadInv(w) && ReadEnabled(w, ReadResume)
    ensures ReadInv(ReadStep(w, ReadResume))
  {
    hide Backlog, ReadStateInv, ResumeRead, FlowInv, Serves, Returned;
    ResumeReadTakes(w.s);
    TakeKeepsReadInv(w, ResumeRead(w.s), w.s.sink.value.capacity);
  }

  lemma DataKeepsReadInv(w: ReadWorld, bytes: seq<byte>)
    requires ReadInv(w) && ReadEnabled(w, Data(bytes))
    ensures ReadInv(ReadStep(w, Data(bytes)))
  {
    hide Backlog, ReadStateInv, OnData;
    DataAppends(w.s, bytes);
    Assoc(w.returned, Backlog(w.s), bytes);
  }

  lemma FlagsKeepReadInv(w: ReadWorld, e: ReadEvent)
    requires ReadInv(w) && ReadEnabled(w, e) && !e.ReadBegin? && !e.ReadResume? && !e.Data?
    ensures ReadInv(ReadStep(w, e))
  {
    hide Queued, QueueShape, Flatten;
  }

  lemma StepKeepsReadInv(w: ReadWorld, e: ReadEvent)
    requires ReadInv(w) && ReadEnabled(w, e)
    ensures ReadInv(ReadStep(w, e))
  {
    hide ReadInv, ReadEnabled, ReadStep;
    match e
    case ReadBegin(capacity) => BeginKeepsReadInv(w, capacity);
    case ReadResume => ResumeKeepsReadInv(w);
    case Data(bytes) => DataKeepsReadInv(w, bytes);
    case _ => FlagsKeepReadInv(w, e);
  }

  /** The invariant holds in every state of every run. */
  lemma {:induction false} RunKeepsReadInv(w: ReadWorld, run: seq<ReadEvent>)
    requires ReadInv(w) && ReadValid(w, run)
    ensures ReadInv(ReadRun(w, run))
    decreases |run|
  {
    if run != [] {
      StepKeepsReadInv(w, run[0]);
      RunKeepsReadInv(ReadStep(w, run[0]), run[1..]);
    }
  }
}
