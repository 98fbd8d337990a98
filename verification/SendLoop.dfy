/** send_loop's body, as the loop it is. What it meets at its suspension points is given as a script:
    one turn per iteration, with nghttp2's answer and how the await that may follow it ended. */
module SendLoop {
  import opened Bytes
  import opened Capy
  import M = SessionModel

  /** The result of nghttp2_session_mem_send2, and for an empty one whether nghttp2 still wants to
      read or write. */
  datatype Answer = Chunk(data: seq<byte>) | Dry(wants: bool) | Failed

  /** `took` is how many bytes a failed write got out. */
  datatype Turn = Turn(answer: Answer, writeOk: bool, took: nat, waitOk: bool)

  /** How it ended: still running at the end of the script, in an orderly way, or by an error that
      makes it drop what it holds. */
  datatype Ending = Running | Left | Dropped

  /** Chunks are never empty: nghttp2 answers 0 bytes when it has none. */
  predicate WellFormed(script: seq<Turn>) {
    forall i :: 0 <= i < |script| && script[i].answer.Chunk? ==> script[i].answer.data != []
  }

  /** Everything nghttp2 handed over in these turns. */
  function Produced(script: seq<Turn>): seq<byte> {
    if script == [] then []
    else
      var last := script[|script| - 1].answer;
      Produced(script[..|script| - 1]) + (if last.Chunk? then last.data else [])
  }

  /** How often nghttp2 ran dry in these turns. */
  function Dries(script: seq<Turn>): nat {
    if script == [] then 0
    else Dries(script[..|script| - 1]) + (if script[|script| - 1].answer.Dry? then 1 else 0)
  }

  lemma OneMoreTurn(script: seq<Turn>, k: nat)
    requires k < |script|
    ensures Produced(script[..k + 1]) ==
            Produced(script[..k]) + (if script[k].answer.Chunk? then script[k].answer.data else [])
    ensures Dries(script[..k + 1]) == Dries(script[..k]) + (if script[k].answer.Dry? then 1 else 0)
  {
    assert script[..k + 1][..k] == script[..k];
  }

  /** Writes that carry more than the accumulator can hold. */
  function FullWrites(writes: Buffers, capacity: nat): nat {
    if writes == [] then 0
    else FullWrites(writes[..|writes| - 1], capacity) + (if |writes[|writes| - 1]| > capacity then 1 else 0)
  }

  lemma {:induction false} FullWritesCarry(writes: Buffers, capacity: nat)
    ensures FullWrites(writes, capacity) * (capacity + 1) <= |Flatten(writes)|
  {
    if writes == [] {
      assert 0 * (capacity + 1) == 0;
    } else {
      var init, last := writes[..|writes| - 1], writes[|writes| - 1];
      FullWritesCarry(init, capacity);
      assert writes == init + [last];
      FlattenAppend(init, last);
      assert (FullWrites(init, capacity) + 1) * (capacity + 1) == FullWrites(init, capacity) * (capacity + 1) + (capacity + 1);
    }
  }

  lemma OneMoreWrite(writes: Buffers, w: seq<byte>, capacity: nat)
    ensures Flatten(writes + [w]) == Flatten(writes) + w
    ensures FullWrites(writes + [w], capacity) == FullWrites(writes, capacity) + (if |w| > capacity then 1 else 0)
  {
    FlattenAppend(writes, w);
    assert (writes + [w])[..|writes|] == writes;
  }

  /** `made[k]` is the number of writes made by the end of turn k. At every turn no more than the
      capacity is held back, and once nghttp2 has run dry, whether the loop then waits or leaves,
      nothing is. */
  ghost predicate Prompt(made: seq<nat>, writes: Buffers, script: seq<Turn>, capacity: nat)
    requires |made| <= |script|
  {
    forall k :: 0 <= k < |made| ==> PromptAt(made[k], writes, script[..k + 1], script[k], capacity)
  }

  ghost predicate PromptAt(made: nat, writes: Buffers, sofar: seq<Turn>, turn: Turn, capacity: nat) {
    && made <= |writes|
    && Flatten(writes[..made]) <= Produced(sofar)
    && |Produced(sofar)| - |Flatten(writes[..made])| <= if turn.answer.Dry? then 0 else capacity
  }

  lemma StillPromptAt(made: nat, writes: Buffers, w: seq<byte>, sofar: seq<Turn>, turn: Turn, capacity: nat)
    requires PromptAt(made, writes, sofar, turn, capacity)
    ensures PromptAt(made, writes + [w], sofar, turn, capacity)
  {
    hide Flatten, Produced;
    assert (writes + [w])[..made] == writes[..made];
  }

  lemma StillPrompt(made: seq<nat>, writes: Buffers, w: seq<byte>, script: seq<Turn>, capacity: nat)
    requires |made| <= |script| && Prompt(made, writes, script, capacity)
    ensures Prompt(made, writes + [w], script, capacity)
  {
    hide PromptAt;
    forall k | 0 <= k < |made|
      ensures PromptAt(made[k], writes + [w], script[..k + 1], script[k], capacity)
    {
      StillPromptAt(made[k], writes, w, script[..k + 1], script[k], capacity);
    }
  }

  lemma PromptLast(writes: Buffers, sofar: seq<Turn>, turn: Turn, capacity: nat, held: seq<byte>)
    requires Produced(sofar) == Flatten(writes) + held && |held| <= if turn.answer.Dry? then 0 else capacity
    ensures PromptAt(|writes|, writes, sofar, turn, capacity)
  {
    hide Flatten, Produced;
    assert writes[..|writes|] == writes;
  }

  lemma PromptNow(made: seq<nat>, writes: Buffers, script: seq<Turn>, capacity: nat, held: seq<byte>)
    requires |made| < |script| && Prompt(made, writes, script, capacity)
    requires Produced(script[..|made| + 1]) == Flatten(writes) + held
    requires |held| <= if script[|made|].answer.Dry? then 0 else capacity
    ensures Prompt(made + [|writes|], writes, script, capacity)
  {
    hide PromptAt, Flatten, Produced;
    var more := made + [|writes|];
    forall k | 0 <= k < |more|
      ensures PromptAt(more[k], writes, script[..k + 1], script[k], capacity)
    {
      if k == |made| {
        PromptLast(writes, script[..k + 1], script[k], capacity, held);
      } else {
        assert more[k] == made[k];
      }
    }
  }

  /** The loop's variables after some turns; `torn` is what a failed write got out. */
  datatype State = State(writes: Buffers, torn: seq<byte>, pending: seq<byte>, made: seq<nat>, ending: Ending)

  /** What had been produced and not written when this turn tried to write it. */
  function Due(writes: Buffers, sofar: seq<Turn>): seq<byte> {
    Produced(sofar)[Min(|Flatten(writes)|, |Produced(sofar)|)..]
  }

  /** This turn tried to write `due`, because nghttp2 was dry or it did not fit, and failed. */
  predicate FailedWrite(t: Turn, due: seq<byte>, torn: seq<byte>, capacity: nat) {
    && !t.answer.Failed? && !t.writeOk && |due| > (if t.answer.Dry? then 0 else capacity)
    && torn == due[..Min(t.took, |due|)]
  }

  /** The bytes the socket took. */
  function Sent(s: State): seq<byte> {
    Flatten(s.writes) + s.torn
  }

  /** The last turn wrote to the socket. */
  predicate Wrote(made: seq<nat>) {
    |made| > 0 && made[|made| - 1] > if |made| > 1 then made[|made| - 2] else 0
  }

  /** The last turn ended the loop, or let it go on, for this reason: a failure and a failed write drop
      everything; a dry turn with nothing to flush leaves if no more is wanted or the wait was
      cancelled; nothing else ends it. */
  ghost predicate EndsFor(t: Turn, ending: Ending, wrote: bool) {
    match ending
    case Dropped => t.answer.Failed? || !t.writeOk
    case Left => t.answer.Dry? && !wrote && (t.answer.wants ==> !t.waitOk)
    case Running => !t.answer.Failed? && (t.answer.Dry? ==> wrote || (t.answer.wants && t.waitOk))
  }

  /** What was written and what is held. */
  ghost predicate Content(s: State, script: seq<Turn>, turns: nat, capacity: nat)
    requires turns <= |script|
  {
    && |s.pending| <= capacity && (s.ending.Left? ==> s.pending == [])
    && (!s.ending.Dropped? ==> s.torn == [] && Flatten(s.writes) + s.pending == Produced(script[..turns]))
    && (s.ending.Dropped? && turns > 0 ==>
          || (script[turns - 1].answer.Failed? && s.torn == [])
          || FailedWrite(script[turns - 1], Due(s.writes, script[..turns]), s.torn, capacity))
    && Sent(s) <= Produced(script[..turns])
    && |s.made| <= turns && Prompt(s.made, s.writes, script, capacity)
    && |s.writes| <= FullWrites(s.writes, capacity) + Dries(script[..turns])
  }

  /** How the loop went from turn to turn. */
  ghost predicate Course(s: State, script: seq<Turn>, turns: nat)
    requires turns <= |script|
  {
    && |s.made| == (if s.ending.Dropped? then turns - 1 else turns)
    && |s.writes| == (if |s.made| > 0 then s.made[|s.made| - 1] else 0)
    && (turns == 0 ==> s.ending.Running?)
    && (turns > 0 ==> EndsFor(script[turns - 1], s.ending, Wrote(s.made)))
  }

  ghost predicate Exact(s: State, script: seq<Turn>, turns: nat, capacity: nat)
    requires turns <= |script|
  {
    Content(s, script, turns, capacity) && Course(s, script, turns)
  }

  lemma DueIs(writes: Buffers, sofar: seq<Turn>, held: seq<byte>)
    requires Produced(sofar) == Flatten(writes) + held
    ensures Due(writes, sofar) == held
  {
    hide Flatten, Produced;
  }

  lemma PrefixSent(all: seq<byte>, sent: seq<byte>, held: seq<byte>, n: nat)
    requires all == sent + held && n <= |held|
    ensures sent + held[..n] <= all
  {
    Assoc(sent, held[..n], held[n..]);
    assert held == held[..n] + held[n..];
  }

  /** A turn that ends in an error: nghttp2's, or a failed write of `data` behind what is pending. */
  lemma TurnDrops(s: State, script: seq<Turn>, turns: nat, capacity: nat, data: seq<byte>, torn: seq<byte>)
    requires turns < |script| && Exact(s, script, turns, capacity) && s.ending.Running?
    requires data == if script[turns].answer.Chunk? then script[turns].answer.data else []
    requires EndsFor(script[turns], Dropped, false)
    requires (script[turns].answer.Failed? && torn == []) || FailedWrite(script[turns], s.pending + data, torn, capacity)
    ensures Exact(s.(pending := [], torn := torn, ending := Dropped), script, turns + 1, capacity)
  {
    hide Prompt, FullWrites, Dries, Produced, Flatten, Due;
    OneMoreTurn(script, turns);
    var held := s.pending + data;
    Assoc(Flatten(s.writes), s.pending, data);
    DueIs(s.writes, script[..turns + 1], held);
    PrefixSent(Produced(script[..turns + 1]), Flatten(s.writes), held, |torn|);
  }

  lemma TurnKeeps(s: State, script: seq<Turn>, turns: nat, capacity: nat, data: seq<byte>, ending: Ending)
    requires turns < |script| && Exact(s, script, turns, capacity) && s.ending.Running?
    requires data == if script[turns].answer.Chunk? then script[turns].answer.data else []
    requires |s.pending| + |data| <= if script[turns].answer.Dry? then 0 else capacity
    requires !ending.Dropped? && EndsFor(script[turns], ending, false)
    ensures Exact(s.(pending := s.pending + data, made := s.made + [|s.writes|], ending := ending),
                  script, turns + 1, capacity)
  {
    hide Prompt, FullWrites, Dries, Produced, Flatten;
    OneMoreTurn(script, turns);
    Assoc(Flatten(s.writes), s.pending, data);
    assert Produced(script[..turns + 1]) == Flatten(s.writes) + (s.pending + data);
    assert Flatten(s.writes) + [] == Flatten(s.writes);
    PromptNow(s.made, s.writes, script, capacity, s.pending + data);
  }

  lemma WriteContent(s: State, script: seq<Turn>, turns: nat, capacity: nat, data: seq<byte>)
    requires turns < |script| && Content(s, script, turns, capacity) && s.ending.Running? && |s.made| == turns
    requires data == if script[turns].answer.Chunk? then script[turns].answer.data else []
    requires script[turns].answer.Dry? || |s.pending| + |data| > capacity
    ensures Content(State(s.writes + [s.pending + data], [], [], s.made + [|s.writes| + 1], Running),
                    script, turns + 1, capacity)
  {
    hide Prompt, FullWrites, Dries, Produced, Flatten;
    var w := s.pending + data;
    OneMoreTurn(script, turns);
    OneMoreWrite(s.writes, w, capacity);
    StillPrompt(s.made, s.writes, w, script, capacity);
    Assoc(Flatten(s.writes), s.pending, data);
    assert Flatten(s.writes + [w]) + [] == Produced(script[..turns + 1]);
    PromptNow(s.made, s.writes + [w], script, capacity, []);
  }

  lemma TurnWrites(s: State, script: seq<Turn>, turns: nat, capacity: nat, data: seq<byte>)
    requires turns < |script| && Exact(s, script, turns, capacity) && s.ending.Running?
    requires data == if script[turns].answer.Chunk? then script[turns].answer.data else []
    requires !script[turns].answer.Failed?
    requires script[turns].answer.Dry? || |s.pending| + |data| > capacity
    ensures Exact(State(s.writes + [s.pending + data], [], [], s.made + [|s.writes| + 1], Running),
                  script, turns + 1, capacity)
  {
    hide Content;
    WriteContent(s, script, turns, capacity, data);
  }

  /** The session model's pump, with these contents and send_loop about to ask nghttp2. */
  function AsPump(s: State): M.Pump {
    M.Pump(M.Pulling, s.pending, FRESH, Flatten(s.writes) + s.pending, Flatten(s.writes))
  }

  function Settle(p: M.Pump, t: Turn): M.Pump {
    if p.pc.Writing? then M.SocketDone(p, t.writeOk, t.took)
    else if p.pc.Asleep? && p.ready.waiter.Waiting? then M.Woken(p.(ready := (if t.waitOk then p.ready.Set() else p.ready.Cancel())))
    else p
  }

  /** The session model's steps for the same turn. */
  function ModelTurn(p: M.Pump, t: Turn): M.Pump {
    match t.answer
    case Failed => p.(pc := M.Exited(true))
    case Chunk(data) => Settle(M.Accept(p, data), t)
    case Dry(wants) => Settle(M.RanDry(p, wants), t)
  }

  function AsPc(ending: Ending): M.SendPc {
    match ending
    case Running => M.Pulling
    case Left => M.Exited(false)
    case Dropped => M.Exited(true)
  }

  /** The state `r` is where the session model's pump gets from `s` with this turn. */
  ghost predicate AsModel(s: State, t: Turn, capacity: nat, r: State) {
    capacity == M.CAPACITY ==>
      var p := ModelTurn(AsPump(s), t);
      p.pc == AsPc(r.ending) && p.socket == Sent(r) && (!r.ending.Dropped? ==> p.pending == r.pending)
  }

  lemma ModelDrops(s: State, t: Turn, capacity: nat, data: seq<byte>, torn: seq<byte>)
    requires |s.pending| <= capacity && data == (if t.answer.Chunk? then t.answer.data else [])
    requires (t.answer.Failed? && torn == []) || FailedWrite(t, s.pending + data, torn, capacity)
    ensures AsModel(s, t, capacity, s.(pending := [], torn := torn, ending := Dropped))
  {
    hide Flatten;
    assert Flatten(s.writes) + [] == Flatten(s.writes);
  }

  lemma ModelKeeps(s: State, t: Turn, capacity: nat, data: seq<byte>)
    requires t.answer.Chunk? && t.answer.data == data && |s.pending| + |data| <= capacity
    requires s.torn == []
    ensures AsModel(s, t, capacity, s.(pending := s.pending + data, made := s.made + [|s.writes|], ending := Running))
  {
    hide Flatten;
    assert Flatten(s.writes) + [] == Flatten(s.writes);
  }

  lemma ModelWrites(s: State, t: Turn, capacity: nat, data: seq<byte>)
    requires data == (if t.answer.Chunk? then t.answer.data else []) && !t.answer.Failed? && t.writeOk
    requires |s.pending| + |data| > if t.answer.Dry? then 0 else capacity
    ensures AsModel(s, t, capacity, State(s.writes + [s.pending + data], [], [], s.made + [|s.writes| + 1], Running))
  {
    hide Flatten;
    FlattenAppend(s.writes, s.pending + data);
    assert Flatten(s.writes + [s.pending + data]) + [] == Flatten(s.writes + [s.pending + data]);
  }

  lemma ModelWaits(s: State, t: Turn, capacity: nat, ending: Ending)
    requires t.answer.Dry? && s.pending == [] && ending == if t.answer.wants && t.waitOk then Running else Left
    requires s.torn == []
    ensures AsModel(s, t, capacity, s.(pending := s.pending + [], made := s.made + [|s.writes|], ending := ending))
  {
    hide Flatten;
    assert Flatten(s.writes) + [] == Flatten(s.writes);
  }

  /** One iteration of the loop, which is one turn of the session model's pump. */
  method Iterate(s: State, script: seq<Turn>, turns: nat, capacity: nat) returns (r: State)
    requires WellFormed(script) && turns < |script|
    requires Exact(s, script, turns, capacity) && s.ending.Running?
    ensures Exact(r, script, turns + 1, capacity)
    ensures AsModel(s, script[turns], capacity, r)
  {
    InRange(s, script, turns, capacity);
    var t := script[turns];
    TurnEnds(t);
    hide Exact, EndsFor, AsModel;
    var data := if t.answer.Chunk? then t.answer.data else [];
    if t.answer.Failed? {
      TurnDrops(s, script, turns, capacity, data, []);
      ModelDrops(s, t, capacity, data, []);
      return s.(pending := [], torn := [], ending := Dropped);
    }
    if data != [] && |data| <= capacity - |s.pending| {
      TurnKeeps(s, script, turns, capacity, data, Running);
      ModelKeeps(s, t, capacity, data);
      return s.(pending := s.pending + data, made := s.made + [|s.writes|]);
    }
    if |s.pending| + |data| > 0 {
      if !t.writeOk {
        var torn := (s.pending + data)[..Min(t.took, |s.pending| + |data|)];
        TurnDrops(s, script, turns, capacity, data, torn);
        ModelDrops(s, t, capacity, data, torn);
        return s.(pending := [], torn := torn, ending := Dropped);
      }
      TurnWrites(s, script, turns, capacity, data);
      ModelWrites(s, t, capacity, data);
      return State(s.writes + [s.pending + data], [], [], s.made + [|s.writes| + 1], Running);
    }
    var ending := if t.answer.wants && t.waitOk then Running else Left;
    TurnKeeps(s, script, turns, capacity, data, ending);
    ModelWaits(s, t, capacity, ending);
    return s.(pending := s.pending + data, made := s.made + [|s.writes|], ending := ending);
  }

  /** For every script: the socket writes and the accumulator are, in order, exactly what nghttp2
      produced in the turns taken, unless an error dropped the last of it; a failed write was one of
      everything due, and of that the socket has the front part it took; the accumulator stays within
      its capacity and is promptly flushed; the loop goes on until a failure, a failed write, or a dry
      turn with nothing more wanted or a cancelled wait; and successful writes to the socket beyond one
      per dry spell are paid for by capacity + 1 bytes each. */
  method Pump(script: seq<Turn>, capacity: nat) returns (s: State, turns: nat)
    requires WellFormed(script)
    ensures turns <= |script| && (s.ending.Running? ==> turns == |script|)
    ensures Content(s, script, turns, capacity) && Course(s, script, turns)
    ensures (|s.writes| - Dries(script[..turns])) * (capacity + 1) <= |Flatten(s.writes)|
  {
    s, turns := State([], [], [], [], Running), 0;
    NothingYet(script, capacity);
    hide Content, Course, Flatten, Produced, Dries;
    while turns < |script| && s.ending.Running?
      invariant turns <= |script| && Exact(s, script, turns, capacity)
      decreases |script| - turns
    {
      s := Iterate(s, script, turns, capacity);
      turns := turns + 1;
    }
    CarriedBytes(s, script, turns, capacity);
  }

  lemma NothingYet(script: seq<Turn>, capacity: nat)
    ensures Exact(State([], [], [], [], Running), script, 0, capacity)
  {
    assert script[..0] == [];
  }

  lemma CarriedBytes(s: State, script: seq<Turn>, turns: nat, capacity: nat)
    requires turns <= |script| && Content(s, script, turns, capacity)
    ensures (|s.writes| - Dries(script[..turns])) * (capacity + 1) <= |Flatten(s.writes)|
  {
    hide Flatten, Produced, Dries, FullWrites, Prompt;
    BatchBound(s.writes, capacity, Dries(script[..turns]));
  }

  lemma InRange(s: State, script: seq<Turn>, turns: nat, capacity: nat)
    requires turns <= |script| && Exact(s, script, turns, capacity)
    ensures |s.pending| <= capacity && (s.ending.Running? ==> s.torn == [])
  {}

  lemma TurnEnds(t: Turn)
    ensures t.answer.Failed? || !t.writeOk ==> EndsFor(t, Dropped, false)
    ensures t.answer.Chunk? ==> EndsFor(t, Running, false)
    ensures t.answer.Dry? ==> EndsFor(t, if t.answer.wants && t.waitOk then Running else Left, false)
  {}

  lemma MulMonotone(a: int, b: int, c: nat)
    requires a <= b
    ensures a * c <= b * c
  {
    assert b * c == a * c + (b - a) * c;
  }

  lemma BatchBound(writes: Buffers, capacity: nat, dries: nat)
    requires |writes| <= FullWrites(writes, capacity) + dries
    ensures (|writes| - dries) * (capacity + 1) <= |Flatten(writes)|
  {
    hide FullWrites, Flatten;
    FullWritesCarry(writes, capacity);
    MulMonotone(|writes| - dries, FullWrites(writes, capacity), capacity + 1);
  }
}
