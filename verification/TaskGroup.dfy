/** TaskGroup and the destructor of Server::Impl: counting-based structured shutdown over tasks that
    spawn tasks, among them an accept loop that ends only on the stop request. */
module TaskGroup {
  import opened Bytes

  /** What a coroutine still has to do: finish (normally or by an exception), suspend, spawn a child and
      go on, or go on with accept_loop, whose accept has just ended: with a connection and the session
      to spawn for it, or with an error. */
  datatype Task =
    | Finish(throws: bool) | Suspend(next: Task) | Fork(child: Task, next: Task)
    | Accepting(won: Option<Task>)

  /** accept_loop as spawned: it starts to accept. */
  const ACCEPT_LOOP := Suspend(Accepting(None))

  /** The coroutines left suspended once `t` has run as far as it can: a child spawned runs first, inside
      spawn(), and may even finish there. accept_loop looks at the stop token only after an error. */
  function Parked(t: Task, stopped: bool): seq<Task> {
    match t
    case Finish(_) => []
    case Suspend(next) => [next]
    case Fork(child, next) => Parked(child, stopped) + Parked(next, stopped)
    case Accepting(None) => if stopped then [] else [Accepting(None)]
    case Accepting(Some(session)) => Parked(session, stopped) + [Accepting(None)]
  }

  /** How many completion callbacks of a kind `t` amounts to: its own and those of all it will spawn. */
  function Ends(t: Task, thrown: bool): nat {
    match t
    case Finish(throws) => Bit(throws == thrown)
    case Suspend(next) => Ends(next, thrown)
    case Fork(child, next) => Ends(child, thrown) + Ends(next, thrown)
    case Accepting(None) => Bit(!thrown)
    case Accepting(Some(session)) => Ends(session, thrown) + Bit(!thrown)
  }

  function AllEnds(ts: seq<Task>, thrown: bool): nat {
    if ts == [] then 0 else Ends(ts[0], thrown) + AllEnds(ts[1..], thrown)
  }

  function Size(t: Task): nat {
    match t
    case Finish(_) => 1
    case Suspend(next) => 1 + Size(next)
    case Fork(child, next) => 1 + Size(child) + Size(next)
    case Accepting(won) => 1 + if won.Some? then 1 + Size(won.value) else 0
  }

  function TotalSize(ts: seq<Task>): nat {
    if ts == [] then 0 else Size(ts[0]) + TotalSize(ts[1..])
  }

  lemma {:induction false} EndsConcat(a: seq<Task>, b: seq<Task>, thrown: bool)
    ensures AllEnds(a + b, thrown) == AllEnds(a, thrown) + AllEnds(b, thrown)
  {
    hide Ends;
    if a == [] {
      assert a + b == b;
    } else {
      assert (a + b)[1..] == a[1..] + b;
      EndsConcat(a[1..], b, thrown);
    }
  }

  lemma {:induction false} SizeConcat(a: seq<Task>, b: seq<Task>)
    ensures TotalSize(a + b) == TotalSize(a) + TotalSize(b)
  {
    hide Size;
    if a == [] {
      assert a + b == b;
    } else {
      assert (a + b)[1..] == a[1..] + b;
      SizeConcat(a[1..], b);
    }
  }

  lemma SumsOne(t: Task)
    ensures AllEnds([t], false) == Ends(t, false) && AllEnds([t], true) == Ends(t, true) && TotalSize([t]) == Size(t)
  {
    assert [t][1..] == [];
  }

  lemma SumsConcat(a: seq<Task>, b: seq<Task>)
    ensures AllEnds(a + b, false) == AllEnds(a, false) + AllEnds(b, false)
    ensures AllEnds(a + b, true) == AllEnds(a, true) + AllEnds(b, true)
    ensures TotalSize(a + b) == TotalSize(a) + TotalSize(b)
  {
    hide AllEnds, TotalSize;
    EndsConcat(a, b, false);
    EndsConcat(a, b, true);
    SizeConcat(a, b);
  }

  lemma FinishSums(throws: bool, stopped: bool)
    ensures Parked(Finish(throws), stopped) == [] && forall thrown :: AllEnds([], thrown) == 0
    ensures Ends(Finish(throws), false) == Bit(!throws) && Ends(Finish(throws), true) == Bit(throws)
  {}

  lemma ForkSums(child: Task, next: Task, stopped: bool)
    ensures forall thrown :: Ends(Fork(child, next), thrown) == Ends(child, thrown) + Ends(next, thrown)
    ensures Parked(Fork(child, next), stopped) == Parked(child, stopped) + Parked(next, stopped)
  {}

  lemma AcceptSums(won: Option<Task>, stopped: bool)
    ensures Parked(Accepting(won), stopped) ==
            (if won.Some? then Parked(won.value, stopped) + [Accepting(None)]
             else if stopped then [] else [Accepting(None)])
    ensures forall thrown :: AllEnds([], thrown) == 0 && Ends(Accepting(None), thrown) == Bit(!thrown)
    ensures won.Some? ==> forall thrown :: Ends(Accepting(won), thrown) == Ends(won.value, thrown) + Bit(!thrown)
  {}

  lemma InOrder(ts: seq<Task>, a: seq<Task>, b: seq<Task>)
    ensures (ts + a) + b == ts + (a + b)
  {}

  lemma TakeOut(ts: seq<Task>, i: nat)
    requires i < |ts|
    ensures var others := ts[..i] + ts[i + 1..];
            && TotalSize(ts) == TotalSize(others) + Size(ts[i])
            && AllEnds(ts, false) == AllEnds(others, false) + Ends(ts[i], false)
            && AllEnds(ts, true) == AllEnds(others, true) + Ends(ts[i], true)
  {
    hide AllEnds, TotalSize, Ends, Size;
    assert ts == (ts[..i] + [ts[i]]) + ts[i + 1..];
    SumsOne(ts[i]);
    SumsConcat(ts[..i] + [ts[i]], ts[i + 1..]);
    SumsConcat(ts[..i], [ts[i]]);
    SumsConcat(ts[..i], ts[i + 1..]);
  }

  // -------------------------------------------------------------------- what the stop request does

  /** The task is or will become an accept loop, which no error ends. */
  predicate Endless(t: Task) {
    match t
    case Finish(_) => false
    case Suspend(next) => Endless(next)
    case Fork(child, next) => Endless(child) || Endless(next)
    case Accepting(_) => true
  }

  predicate AnyEndless(ts: seq<Task>) {
    exists i :: 0 <= i < |ts| && Endless(ts[i])
  }

  lemma AnyConcat(a: seq<Task>, b: seq<Task>)
    ensures AnyEndless(a + b) <==> AnyEndless(a) || AnyEndless(b)
  {
    if AnyEndless(a) {
      var i :| 0 <= i < |a| && Endless(a[i]);
      assert (a + b)[i] == a[i];
    }
    if AnyEndless(b) {
      var i :| 0 <= i < |b| && Endless(b[i]);
      assert (a + b)[|a| + i] == b[i];
    }
  }

  /** Without a stop request an accept loop stays, in the task itself or in what it leaves behind. */
  lemma {:induction false} EndlessStays(t: Task)
    ensures AnyEndless(Parked(t, false)) <==> Endless(t)
  {
    hide AnyEndless;
    match t
    case Finish(_) => assert !AnyEndless([]) by { OneEndless(t); }
    case Suspend(next) => OneEndless(next);
    case Fork(child, next) =>
      EndlessStays(child);
      EndlessStays(next);
      AnyConcat(Parked(child, false), Parked(next, false));
    case Accepting(None) => OneEndless(t);
    case Accepting(Some(session)) =>
      OneEndless(Accepting(None));
      AnyConcat(Parked(session, false), [Accepting(None)]);
  }

  lemma OneEndless(t: Task)
    ensures (AnyEndless([t]) <==> Endless(t)) && !AnyEndless([])
  {
    assert [t][0] == t;
  }

  /** accept_loop goes round after every connection, stop or no stop, and after every error but one that
      comes after the stop request. */
  lemma AcceptEndsExactly(won: Option<Task>, stopped: bool)
    ensures AnyEndless(Parked(Accepting(won), stopped)) <==> won.Some? || !stopped
  {
    hide AnyEndless;
    OneEndless(Accepting(None));
    if won.Some? {
      AnyConcat(Parked(won.value, stopped), [Accepting(None)]);
    }
  }

  /** Running a task makes progress: what it leaves suspended is smaller than what it was, if stop was
      requested or no accept loop is in it. */
  lemma {:induction false} RunningShrinks(t: Task, stopped: bool)
    requires stopped || !Endless(t)
    ensures TotalSize(Parked(t, stopped)) < Size(t)
  {
    match t
    case Finish(_) =>
    case Suspend(next) => SumsOne(next);
    case Fork(child, next) =>
      RunningShrinks(child, stopped);
      RunningShrinks(next, stopped);
      SumsConcat(Parked(child, stopped), Parked(next, stopped));
    case Accepting(None) =>
    case Accepting(Some(session)) =>
      RunningShrinks(session, stopped);
      SumsOne(Accepting(None));
      SumsConcat(Parked(session, stopped), [Accepting(None)]);
  }

  /** The scheduler resumes the i-th suspended coroutine. */
  function Pick(ts: seq<Task>, i: nat, stopped: bool): seq<Task>
    requires i < |ts|
  {
    ts[..i] + ts[i + 1..] + Parked(ts[i], stopped)
  }

  /** These resumptions can follow each other. */
  predicate Schedule(ts: seq<Task>, picks: seq<nat>, stopped: bool)
    decreases |picks|
  {
    picks == [] || (picks[0] < |ts| && Schedule(Pick(ts, picks[0], stopped), picks[1..], stopped))
  }

  lemma PickShrinks(ts: seq<Task>, i: nat, stopped: bool)
    requires i < |ts| && (stopped || !Endless(ts[i]))
    ensures TotalSize(Pick(ts, i, stopped)) < TotalSize(ts)
  {
    RunningShrinks(ts[i], stopped);
    TakeOut(ts, i);
    SumsConcat(ts[..i] + ts[i + 1..], Parked(ts[i], stopped));
  }

  lemma PickKeepsEndless(ts: seq<Task>, i: nat)
    requires i < |ts|
    ensures !AnyEndless(ts) ==> !AnyEndless(Pick(ts, i, false))
    ensures Endless(ts[i]) ==> AnyEndless(Pick(ts, i, false))
  {
    EndlessStays(ts[i]);
    AnyConcat(ts[..i] + ts[i + 1..], Parked(ts[i], false));
    AnyConcat(ts[..i], ts[i + 1..]);
  }

  lemma {:induction false} SchedulesEnd(ts: seq<Task>, picks: seq<nat>, stopped: bool)
    requires Schedule(ts, picks, stopped) && (stopped || !AnyEndless(ts))
    ensures |picks| <= TotalSize(ts)
    decreases |picks|
  {
    if picks != [] {
      PickShrinks(ts, picks[0], stopped);
      PickKeepsEndless(ts, picks[0]);
      SchedulesEnd(Pick(ts, picks[0], stopped), picks[1..], stopped);
    }
  }

  lemma {:induction false} SchedulesGoOn(ts: seq<Task>, n: nat) returns (picks: seq<nat>)
    requires AnyEndless(ts)
    ensures Schedule(ts, picks, false) && |picks| == n
    decreases n
  {
    if n == 0 {
      picks := [];
    } else {
      var i :| 0 <= i < |ts| && Endless(ts[i]);
      PickKeepsEndless(ts, i);
      var more := SchedulesGoOn(Pick(ts, i, false), n - 1);
      picks := [i] + more;
      assert picks[1..] == more;
    }
  }

  ghost predicate EndsWithin(ts: seq<Task>, stopped: bool, bound: nat) {
    forall picks :: Schedule(ts, picks, stopped) ==> |picks| <= bound
  }

  /** Driving the tasks ends under every schedule if and only if stop was requested or there is no accept
      loop among them. */
  lemma DrivingEndsExactly(ts: seq<Task>, stopped: bool)
    ensures (exists bound :: EndsWithin(ts, stopped, bound)) <==> stopped || !AnyEndless(ts)
  {
    if stopped || !AnyEndless(ts) {
      forall picks | Schedule(ts, picks, stopped)
        ensures |picks| <= TotalSize(ts)
      {
        SchedulesEnd(ts, picks, stopped);
      }
      assert EndsWithin(ts, stopped, TotalSize(ts));
    } else {
      forall bound: nat
        ensures !EndsWithin(ts, stopped, bound)
      {
        var picks := SchedulesGoOn(ts, bound + 1);
      }
    }
  }

  // ---------------------------------------------------------------------------------- the group

  /** The group together with the io_context that drives its coroutines. `returned` and `threw` count the
      calls of the two completion callbacks, `untracked` the handlers of the io_context that belong to
      no tracked coroutine. */
  class TaskGroup {
    var count: nat
    var suspended: seq<Task>
    var returned: nat
    var threw: nat
    var untracked: nat
    var stopRequested: bool

    constructor (handlers: nat)
      ensures count == 0 && suspended == [] && returned == 0 && threw == 0
      ensures !stopRequested && untracked == handlers
    {
      count, suspended, returned, threw, stopRequested, untracked := 0, [], 0, 0, false, handlers;
    }

    method RequestStop()
      modifies this`stopRequested
      ensures stopRequested
    {
      stopRequested := true;
    }

    /** The count covers every suspended task and `running` more that are on the call stack. */
    ghost predicate Counts(running: int)
      reads this`count, this`suspended
    {
      count == |suspended| + running
    }

    /** The callbacks run and, for these tasks, still to run, of each kind. */
    ghost predicate Amounts(ts: seq<Task>, normal: nat, thrown: nat)
      reads this`returned, this`threw
    {
      returned + AllEnds(ts, false) == normal && threw + AllEnds(ts, true) == thrown
    }

    /** Callbacks run and still to run. */
    ghost function Returns(): nat
      reads this`returned, this`suspended
    {
      returned + AllEnds(suspended, false)
    }

    ghost function Throws(): nat
      reads this`threw, this`suspended
    {
      threw + AllEnds(suspended, true)
    }

    /** Everything the io_context still has to do. */
    ghost function Load(): nat
      reads this`suspended, this`untracked
    {
      TotalSize(suspended) + untracked
    }

    /** Server::Impl::start(): the accept loop runs up to its first accept. */
    method Start()
      requires Counts(0)
      modifies this`count, this`suspended, this`returned, this`threw
      ensures Counts(0) && suspended == old(suspended) + [Accepting(None)] && count == old(count) + 1
      ensures Returns() == old(Returns()) + 1 && Throws() == old(Throws())
    {
      ghost var before := suspended;
      SumsOne(Accepting(None));
      SumsConcat(before, [Accepting(None)]);
      Spawn(ACCEPT_LOOP, 0);
    }

    /** A connection ends a pending accept. The stop request would have ended it with an error. */
    method Arrive(i: nat, session: Task)
      requires Counts(0) && !stopRequested && i < |suspended| && suspended[i] == Accepting(None)
      modifies this`suspended
      ensures Counts(0) && suspended == old(suspended)[i := Accepting(Some(session))]
      ensures Returns() == old(Returns()) + Ends(session, false) && Throws() == old(Throws()) + Ends(session, true)
    {
      hide AllEnds;
      ghost var after, others := suspended[i := Accepting(Some(session))], suspended[..i] + suspended[i + 1..];
      TakeOut(suspended, i);
      TakeOut(after, i);
      assert after[..i] + after[i + 1..] == others;
      suspended := suspended[i := Accepting(Some(session))];
    }

    /** spawn(): count first, then run; a task that finishes inside is uncounted inside. */
    method Spawn(t: Task, ghost running: nat)
      requires Counts(running)
      modifies this`count, this`suspended, this`returned, this`threw
      ensures Counts(running) && suspended == old(suspended) + Parked(t, stopRequested)
      ensures Amounts(Parked(t, stopRequested), old(returned) + Ends(t, false), old(threw) + Ends(t, true))
      decreases t, 2
    {
      hide Ends, AllEnds, Parked;
      count := count + 1;
      Resume(t, running + 1);
    }

    /** A coroutine runs to its next suspension or its end; either completion callback decrements a
        count that is at least one. */
    method Resume(t: Task, ghost running: nat)
      requires Counts(running) && running > 0
      modifies this`count, this`suspended, this`returned, this`threw
      ensures Counts(running - 1) && suspended == old(suspended) + Parked(t, stopRequested)
      ensures Amounts(Parked(t, stopRequested), old(returned) + Ends(t, false), old(threw) + Ends(t, true))
      decreases t, 1
    {
      hide Ends, AllEnds, Parked;
      match t
      case Finish(throws) =>
        FinishSums(throws, stopRequested);
        Complete(throws);
      case Suspend(next) => Park(next, t, running);
      case Fork(child, next) => ResumeFork(child, next, running);
      case Accepting(won) => ResumeAccept(won, running);
    }

    /** The coroutine `t` is suspended, to go on with `next`. */
    method Park(next: Task, ghost t: Task, ghost running: nat)
      requires Counts(running) && running > 0 && t == Suspend(next)
      modifies this`suspended
      ensures Counts(running - 1) && suspended == old(suspended) + Parked(t, stopRequested)
      ensures Amounts(Parked(t, stopRequested), returned + Ends(t, false), threw + Ends(t, true))
    {
      SumsOne(next);
      suspended := suspended + [next];
    }

    /** The completion callbacks, of which run_async calls one. */
    method Complete(throws: bool)
      requires count > 0
      modifies this`count, this`returned, this`threw
      ensures count == old(count) - 1
      ensures returned == old(returned) + Bit(!throws) && threw == old(threw) + Bit(throws)
    {
      count := count - 1;
      if throws {
        threw := threw + 1;
      } else {
        returned := returned + 1;
      }
    }

    /** The child runs first, inside spawn(). */
    method ResumeFork(child: Task, next: Task, ghost running: nat)
      requires Counts(running) && running > 0
      modifies this`count, this`suspended, this`returned, this`threw
      ensures Counts(running - 1) && suspended == old(suspended) + Parked(Fork(child, next), stopRequested)
      ensures Amounts(Parked(Fork(child, next), stopRequested),
                      old(returned) + Ends(Fork(child, next), false), old(threw) + Ends(Fork(child, next), true))
      decreases Fork(child, next), 0
    {
      hide AllEnds, Ends, Parked;
      ghost var first, second := Parked(child, stopRequested), Parked(next, stopRequested);
      ForkSums(child, next, stopRequested);
      SumsConcat(first, second);
      InOrder(suspended, first, second);
      Spawn(child, running);
      Resume(next, running);
    }

    /** accept_loop behind its accept: a connection gets its session and the loop goes round; an error ends
        it only after the stop request. */
    method ResumeAccept(won: Option<Task>, ghost running: nat)
      requires Counts(running) && running > 0
      modifies this`count, this`suspended, this`returned, this`threw
      ensures Counts(running - 1) && suspended == old(suspended) + Parked(Accepting(won), stopRequested)
      ensures Amounts(Parked(Accepting(won), stopRequested),
                      old(returned) + Ends(Accepting(won), false), old(threw) + Ends(Accepting(won), true))
      decreases Accepting(won), 0
    {
      hide AllEnds, Ends, Parked;
      var again := Accepting(None);
      SumsOne(again);
      AcceptSums(won, stopRequested);
      if won.None? && stopRequested {
        Complete(false);
        return;
      }
      if won.Some? {
        SumsConcat(Parked(won.value, stopRequested), [again]);
        Spawn(won.value, running);
      }
      suspended := suspended + [again];
      if won.Some? {
        InOrder(old(suspended), Parked(won.value, stopRequested), [again]);
      }
    }

    /** io_context::run_one: some handler runs, of a tracked coroutine or another. */
    method RunOne()
      requires Counts(0) && suspended != []
      modifies this`count, this`suspended, this`returned, this`threw, this`untracked
      ensures Counts(0) && Returns() == old(Returns()) && Throws() == old(Throws())
      ensures stopRequested ==> Load() < old(Load())
      ensures suspended == old(suspended) ||
              exists i: nat :: i < |old(suspended)| && suspended == Pick(old(suspended), i, stopRequested)
    {
      hide AllEnds, TotalSize;
      var other: bool := *;
      if other && untracked > 0 {
        untracked := untracked - 1;
        return;
      }
      var i: nat :| i < |suspended|;
      var t := suspended[i];
      ghost var before, others := suspended, suspended[..i] + suspended[i + 1..];
      if stopRequested {
        PickShrinks(before, i, true);
      }
      TakeOut(before, i);
      SumsConcat(others, Parked(t, stopRequested));
      suspended := suspended[..i] + suspended[i + 1..];
      Resume(t, 1);
      assert suspended == Pick(before, i, stopRequested);
    }

    /** io_context::poll: whatever is ready runs, possibly nothing. */
    method Poll() returns (ran: nat)
      requires Counts(0) && stopRequested
      modifies this`count, this`suspended, this`returned, this`threw, this`untracked
      ensures Counts(0) && Returns() == old(Returns()) && Throws() == old(Throws())
      ensures if ran == 0 then Load() == old(Load()) && suspended == old(suspended) else Load() < old(Load())
    {
      ran := 0;
      while suspended != []
        invariant Counts(0) && Returns() == old(Returns()) && Throws() == old(Throws())
        invariant if ran == 0 then Load() == old(Load()) && suspended == old(suspended) else Load() < old(Load())
        decreases Load()
      {
        var ready: bool := *;
        if !ready {
          return;
        }
        RunOne();
        ran := ran + 1;
      }
    }

    /** ~Impl(): request_stop(), then drive the io_context while anything is tracked. The loop ends whatever
        the scheduler does, and when it ends no tracked coroutine is left: each task ever spawned has run
        exactly one completion callback, of its own kind. */
    method Drain()
      requires Counts(0)
      modifies this`stopRequested, this`count, this`suspended, this`returned, this`threw, this`untracked
      ensures stopRequested && count == 0 && suspended == []
      ensures returned == old(Returns()) && threw == old(Throws())
    {
      RequestStop();
      while count > 0
        invariant Counts(0) && stopRequested
        invariant Returns() == old(Returns()) && Throws() == old(Throws())
        decreases Load()
      {
        var ran := Poll();
        if ran == 0 {
          RunOne();
        }
      }
    }
  }
}
