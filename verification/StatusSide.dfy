/** Waiting for a response's :status on a client stream. */
module StatusSide {
  import opened Bytes
  import opened Capy

  datatype StatusState = StatusState(status: Option<nat>, closed: bool, statusReady: AsyncEvent)

  const NEW_STATUS_STATE := StatusState(None, false, FRESH)

  datatype StatusOutcome = StatusIs(code: nat) | StatusFailed(error: Error) | StatusSuspended

  datatype StatusReaction = StatusReaction(state: StatusState, outcome: StatusOutcome)

  /** `status_` is an int, and a negative one means that no status has arrived. */
  const INT_LIMIT: nat := 0x8000_0000

  /** What storing an unsigned code in `status_` amounts to. */
  function AsStatus(code: nat): Option<nat> {
    if code < INT_LIMIT then Some(code) else None
  }

  function SetStatus(s: StatusState, code: nat): StatusState {
    s.(status := AsStatus(code), statusReady := s.statusReady.Set())
  }

  function OnStatusClose(s: StatusState): StatusState {
    s.(closed := true, statusReady := s.statusReady.Set())
  }

  function BeginStatus(s: StatusState): StatusReaction {
    if s.status.Some? then StatusReaction(s, StatusIs(s.status.value))
    else StatusReaction(s.(statusReady := s.statusReady.Clear().Wait()), StatusSuspended)
  }

  /** `readEof` is the read side's flag, which decides what eof_error() reports. */
  function ResumeStatus(s: StatusState, readEof: bool): StatusReaction
    requires s.statusReady.waiter.Posted?
  {
    StatusReaction(s.(statusReady := s.statusReady.Resumed()),
                   if !s.statusReady.waiter.ok then StatusFailed(Canceled)
                   else if s.status.Some? then StatusIs(s.status.value)
                   else StatusFailed(EofError(readEof)))
  }

  datatype StatusEvent = StatusBegin | StatusResume | StatusCancel | StatusHeader(code: nat) | StatusClose

  predicate StatusEnabled(s: StatusState, e: StatusEvent) {
    match e
    case StatusBegin => s.statusReady.waiter.Nobody?
    case StatusResume => s.statusReady.waiter.Posted?
    case StatusCancel => s.statusReady.waiter.Waiting?
    case StatusHeader(_) => !s.closed
    case StatusClose => !s.closed
  }

  function StatusStep(s: StatusState, e: StatusEvent): StatusState
    requires StatusEnabled(s, e)
  {
    match e
    case StatusBegin => BeginStatus(s).state
    case StatusResume => ResumeStatus(s, false).state
    case StatusCancel => s.(statusReady := s.statusReady.Cancel())
    case StatusHeader(code) => SetStatus(s, code)
    case StatusClose => OnStatusClose(s)
  }

  predicate StatusValid(s: StatusState, run: seq<StatusEvent>)
    decreases |run|
  {
    run == [] || (StatusEnabled(s, run[0]) && StatusValid(StatusStep(s, run[0]), run[1..]))
  }

  function StatusRun(s: StatusState, run: seq<StatusEvent>): StatusState
    requires StatusValid(s, run)
    decreases |run|
  {
    if run == [] then s else StatusRun(StatusStep(s, run[0]), run[1..])
  }

  /** A waiting caller has not been told of a status, because none has arrived. */
  ghost predicate StatusInv(s: StatusState) {
    s.statusReady.waiter.Waiting? ==> s.status.None? && !s.statusReady.isSet
  }

  lemma {:induction false} RunKeepsStatusInv(s: StatusState, run: seq<StatusEvent>)
    requires StatusInv(s) && StatusValid(s, run)
    ensures StatusInv(StatusRun(s, run))
    decreases |run|
  {
    if run != [] {
      RunKeepsStatusInv(StatusStep(s, run[0]), run[1..]);
    }
  }

  // ------------------------------------------------------------------------ what a call answers

  /** The code of the last :status among these events. */
  function LastHeader(run: seq<StatusEvent>): Option<nat> {
    if run == [] then None
    else if LastHeader(run[1..]).Some? then LastHeader(run[1..])
    else if run[0].StatusHeader? then Some(run[0].code)
    else None
  }

  /** What a :status leaves behind: the last one counts. */
  function Kept(last: Option<nat>): Option<nat> {
    if last.Some? then AsStatus(last.value) else None
  }

  lemma {:induction false} StatusRecords(s: StatusState, run: seq<StatusEvent>)
    requires StatusValid(s, run)
    ensures StatusRun(s, run).status == if LastHeader(run).Some? then Kept(LastHeader(run)) else s.status
    decreases |run|
  {
    if run != [] {
      StatusRecords(StatusStep(s, run[0]), run[1..]);
    }
  }

  /** Nobody begins or resumes a status call in these events. */
  predicate SameCall(during: seq<StatusEvent>) {
    forall i :: 0 <= i < |during| ==> during[i] != StatusBegin && during[i] != StatusResume
  }

  lemma {:induction false} WaitEndsExactly(s: StatusState, during: seq<StatusEvent>)
    requires StatusValid(s, during) && SameCall(during) && !s.statusReady.waiter.Nobody?
    ensures var w, v := s.statusReady.waiter, StatusRun(s, during).statusReady.waiter;
            && !v.Nobody?
            && (v == Posted(false) <==> w == Posted(false) || StatusCancel in during)
            && (v.Waiting? <==> w.Waiting? && StatusCancel !in during && StatusClose !in during && LastHeader(during).None?)
    decreases |during|
  {
    if during != [] {
      assert during == [during[0]] + during[1..];
      WaitEndsExactly(StatusStep(s, during[0]), during[1..]);
    }
  }

  /** status() is exact, whatever came before the call and whatever comes between it and its resumption. It
      answers the last :status that arrived, at once if that was before the call; else it waits until a
      :status, a close or a cancellation comes, and not longer. A cancelled call says so, and one that
      still has no status reports the end of the stream. */
  lemma StatusIsExact(run: seq<StatusEvent>, during: seq<StatusEvent>, readEof: bool)
    requires StatusValid(NEW_STATUS_STATE, run)
    requires var s := StatusRun(NEW_STATUS_STATE, run);
             StatusEnabled(s, StatusBegin) && StatusValid(BeginStatus(s).state, during) && SameCall(during)
    ensures var s := StatusRun(NEW_STATUS_STATE, run);
            var t := StatusRun(BeginStatus(s).state, during);
            var known, heard := Kept(LastHeader(run)), Kept(LastHeader(during));
            if known.Some? then BeginStatus(s).outcome == StatusIs(known.value)
            else
              && BeginStatus(s).outcome == StatusSuspended
              && (t.statusReady.waiter.Posted? <==>
                    StatusCancel in during || StatusClose in during || LastHeader(during).Some?)
              && (t.statusReady.waiter.Posted? ==>
                    ResumeStatus(t, readEof).outcome ==
                    if StatusCancel in during then StatusFailed(Canceled)
                    else if heard.Some? then StatusIs(heard.value)
                    else StatusFailed(if readEof then Eof else StreamTruncated))
  {
    hide StatusValid, StatusRun;
    var s := StatusRun(NEW_STATUS_STATE, run);
    StatusRecords(NEW_STATUS_STATE, run);
    if s.status.None? {
      var t := BeginStatus(s).state;
      StatusRecords(t, during);
      WaitEndsExactly(t, during);
    }
  }

  // ------------------------------------------------------------------- a call after the close

  predicate Uncancelled(run: seq<StatusEvent>) {
    forall i :: 0 <= i < |run| ==> run[i] != StatusCancel
  }

  /** Nobody stops the caller, and yet it never stops waiting. */
  ghost predicate NeverEnds(s: StatusState) {
    forall run: seq<StatusEvent> :: StatusValid(s, run) && Uncancelled(run) ==>
      StatusRun(s, run).statusReady.waiter.Waiting?
  }

  /** status() is documented to wake when the stream closes, yet it never looks at `closed_` before it
      waits: a call made in state `s` can wait for ever exactly when the stream is already closed and
      no status has arrived. */
  lemma StatusCallHangsExactly(s: StatusState)
    requires StatusInv(s) && StatusEnabled(s, StatusBegin)
    ensures s.closed && s.status.None? <==>
            BeginStatus(s).outcome.StatusSuspended? && NeverEnds(BeginStatus(s).state)
  {
    var t := BeginStatus(s).state;
    if s.closed && s.status.None? {
      // a status or a close would need an open stream, so only a cancellation could come
      assert forall e :: StatusEnabled(t, e) ==> e == StatusCancel;
    } else if s.status.None? {
      var run := [StatusClose];
      assert run[1..] == [];
      assert StatusValid(t, run) && StatusRun(t, run) == OnStatusClose(t);
      assert !NeverEnds(t);
    }
  }
}
