// The event iterator: a consumer of a feed that is driven by calls of Next. The three
// iterators of the contract binding are this one at different event types.
module Iterators {
  import opened Words
  import opened Feeds

  datatype Phase = Idle | Entered | Selecting

  datatype Pick = PickLog | PickErr

  // The scheduler lets the producer act, lets the user call Next, or lets the call in
  // progress take its next step; when both channels are ready it also decides the select.
  datatype Turn = Env(action: Action) | Call | Go(pick: Pick)

  // The fields of the iterator, its feed, and the history: logs taken from the channel,
  // events returned by Next, and the results of Next.
  datatype Iter = Iter(
    feed: Feed, event: Option<EventOf>, done: bool, fail: Option<Error>, phase: Phase,
    received: seq<Log>, delivered: seq<EventOf>, results: seq<bool>)

  function Open(logs: seq<Log>, cap: nat): Iter {
    Iter(Feed(logs, [], cap, Quiet), None, false, None, Idle, [], [], [])
  }

  function Return(s: Iter, b: bool): Iter {
    s.(phase := Idle, results := s.results + [b])
  }

  function TakeLog(s: Iter, unpack: Log -> Result<Fields>): Iter
    requires s.feed.buffer != []
  {
    var log := s.feed.buffer[0];
    var taken := s.(feed := s.feed.(buffer := s.feed.buffer[1..]), received := s.received + [log]);
    match unpack(log)
    case Err(e) => Return(taken.(event := Some(Blank), fail := Some(e)), false)
    case Ok(fields) =>
      var e := Event(fields, log);
      Return(taken.(event := Some(e), delivered := s.delivered + [e]), true)
  }

  function Step(s: Iter, turn: Turn, unpack: Log -> Result<Fields>): Iter {
    match turn
    case Env(a) => s.(feed := Act(s.feed, a))
    case Call => if s.phase == Idle then s.(phase := Entered) else s
    case Go(pick) =>
      match s.phase
      case Idle => s
      case Entered =>
        if s.fail.Some? then Return(s, false)
        else if !s.done then s.(phase := Selecting)
        else if s.feed.buffer != [] then TakeLog(s, unpack)
        else Return(s, false)
      case Selecting =>
        if pick == PickLog && s.feed.buffer != [] then TakeLog(s, unpack)
        else if pick == PickErr && s.feed.err != Quiet then
          s.(done := true, fail := Verdict(s.feed.err), feed := s.feed.(err := Closed), phase := Entered)
        else s
  }

  // The turns of a schedule from position i up to j.
  function Exec(s: Iter, schedule: seq<Turn>, i: nat, j: nat, unpack: Log -> Result<Fields>): Iter
    requires i <= j <= |schedule|
    decreases j
  {
    if i == j then s else Step(Exec(s, schedule, i, j - 1, unpack), schedule[j - 1], unpack)
  }

  // Where a run stands after its first n turns.
  function After(logs: seq<Log>, cap: nat, schedule: seq<Turn>, n: nat, unpack: Log -> Result<Fields>): Iter
    requires n <= |schedule|
  {
    Exec(Open(logs, cap), schedule, 0, n, unpack)
  }

  // ---------------------------------------------------------------- invariant

  ghost function Trues(results: seq<bool>): nat {
    if results == [] then 0 else Trues(results[..|results| - 1]) + if results[|results| - 1] then 1 else 0
  }

  ghost predicate Inv(all: seq<Log>, s: Iter, unpack: Log -> Result<Fields>) {
    && Conserved(all, s.received, s.feed)
    && Unpacked(s.delivered, s.received, unpack)
    && (|s.received| == |s.delivered| ||
        (|s.received| == |s.delivered| + 1 && s.fail.Some?
         && unpack(s.received[|s.delivered|]) == Err(s.fail.value)))
    && (s.done ==> s.feed.err == Closed)
    && (false in s.results ==> s.fail.Some? || (s.done && s.feed.buffer == []))
    && Trues(s.results) == |s.delivered|
    && (s.phase == Selecting ==> !s.done && s.fail.None?)
  }

  lemma TruesAppend(results: seq<bool>, b: bool)
    ensures Trues(results + [b]) == Trues(results) + if b then 1 else 0
  {
    assert (results + [b])[..|results|] == results;
  }

  lemma TakeKeepsInv(all: seq<Log>, s: Iter, unpack: Log -> Result<Fields>)
    requires Inv(all, s, unpack) && s.feed.buffer != [] && s.fail.None?
    ensures Inv(all, TakeLog(s, unpack), unpack)
  {
    var log := s.feed.buffer[0];
    TakeConserves(all, s.received, s.feed);
    UnpackedAppend(s.delivered, s.received, unpack, log);
    TruesAppend(s.results, unpack(log).Ok?);
  }

  lemma ActKeepsInv(all: seq<Log>, s: Iter, a: Action, unpack: Log -> Result<Fields>)
    requires Inv(all, s, unpack)
    ensures Inv(all, s.(feed := Act(s.feed, a)), unpack)
  {
    ActConserves(all, s.received, s.feed, a);
  }

  lemma StepKeepsInv(all: seq<Log>, s: Iter, turn: Turn, unpack: Log -> Result<Fields>)
    requires Inv(all, s, unpack)
    ensures Inv(all, Step(s, turn, unpack), unpack)
  {
    match turn
    case Env(a) => ActKeepsInv(all, s, a, unpack);
    case Call =>
    case Go(pick) =>
      TruesAppend(s.results, false);
      if s.feed.buffer != [] && s.fail.None? {
        TakeKeepsInv(all, s, unpack);
      }
  }

  lemma {:induction false} ReachableInv(
    all: seq<Log>, cap: nat, schedule: seq<Turn>, n: nat, unpack: Log -> Result<Fields>)
    requires n <= |schedule|
    ensures Inv(all, After(all, cap, schedule, n, unpack), unpack)
  {
    if n > 0 {
      ReachableInv(all, cap, schedule, n - 1, unpack);
      StepKeepsInv(all, After(all, cap, schedule, n - 1, unpack), schedule[n - 1], unpack);
    }
  }

  // ---------------------------------------------------------------- main results

  // In every interleaving, whatever goes wrong, the events delivered are the first of the
  // producer's logs, in order and each once, with Raw equal to its own log; and Next has
  // returned true once for each of them.
  lemma DeliveredIsAPrefix(all: seq<Log>, cap: nat, schedule: seq<Turn>, n: nat, unpack: Log -> Result<Fields>)
    requires n <= |schedule|
    ensures var s := After(all, cap, schedule, n, unpack);
            Unpacked(s.delivered, all, unpack) && Trues(s.results) == |s.delivered|
  {
    var s := After(all, cap, schedule, n, unpack);
    ReachableInv(all, cap, schedule, n, unpack);
    assert s.received <= s.received + s.feed.buffer <= all;
    UnpackedPrefix(s.delivered, s.received, all, unpack);
  }

  // What the user reads after Next has returned true: the event delivered last.
  ghost predicate ShowsLast(s: Iter) {
    s.phase == Idle && s.results != [] && s.results[|s.results| - 1] ==>
      s.delivered != [] && s.event == Some(s.delivered[|s.delivered| - 1])
  }

  lemma StepShowsLast(s: Iter, turn: Turn, unpack: Log -> Result<Fields>)
    requires ShowsLast(s)
    ensures ShowsLast(Step(s, turn, unpack))
  {
  }

  lemma {:induction false} TrueShowsTheEvent(
    all: seq<Log>, cap: nat, schedule: seq<Turn>, n: nat, unpack: Log -> Result<Fields>)
    requires n <= |schedule|
    ensures ShowsLast(After(all, cap, schedule, n, unpack))
  {
    if n > 0 {
      TrueShowsTheEvent(all, cap, schedule, n - 1, unpack);
      StepShowsLast(After(all, cap, schedule, n - 1, unpack), schedule[n - 1], unpack);
    }
  }

  ghost predicate ClosedMeansSent(s: Iter) {
    s.feed.err == Closed && s.fail.None? ==> s.feed.pending == []
  }

  lemma StepKeepsClosedMeansSent(s: Iter, turn: Turn, unpack: Log -> Result<Fields>)
    requires ClosedMeansSent(s) && turn != Env(Unsubscribe)
    requires s.phase == Selecting ==> s.fail.None?
    ensures ClosedMeansSent(Step(s, turn, unpack))
  {
  }

  // Unless the user unsubscribes, a producer signals nil only after its last log.
  lemma {:induction false} NilComesLast(
    all: seq<Log>, cap: nat, schedule: seq<Turn>, n: nat, unpack: Log -> Result<Fields>)
    requires n <= |schedule| && Env(Unsubscribe) !in schedule
    ensures ClosedMeansSent(After(all, cap, schedule, n, unpack))
  {
    if n > 0 {
      NilComesLast(all, cap, schedule, n - 1, unpack);
      ReachableInv(all, cap, schedule, n - 1, unpack);
      StepKeepsClosedMeansSent(After(all, cap, schedule, n - 1, unpack), schedule[n - 1], unpack);
    }
  }

  // If Next has returned false and Error is nil, the subscription is over and every log it
  // had sent was delivered, even when the select took the nil signal, or the user closed the
  // iterator, while logs were still buffered.
  lemma FalseWithoutErrorMeansDrained(
    all: seq<Log>, cap: nat, schedule: seq<Turn>, n: nat, unpack: Log -> Result<Fields>)
    requires n <= |schedule|
    ensures var s := After(all, cap, schedule, n, unpack);
            false in s.results && s.fail.None? ==>
              Unpacked(s.delivered, all, unpack) && |s.delivered| + |s.feed.pending| == |all| && s.feed.err == Closed
  {
    var s := After(all, cap, schedule, n, unpack);
    ReachableInv(all, cap, schedule, n, unpack);
    DeliveredIsAPrefix(all, cap, schedule, n, unpack);
    if false in s.results && s.fail.None? {
      assert s.received + s.feed.buffer + s.feed.pending == s.received + s.feed.pending;
    }
  }

  // Without an Unsubscribe it was the whole list.
  lemma FalseWithoutErrorMeansComplete(
    all: seq<Log>, cap: nat, schedule: seq<Turn>, n: nat, unpack: Log -> Result<Fields>)
    requires n <= |schedule| && Env(Unsubscribe) !in schedule
    ensures var s := After(all, cap, schedule, n, unpack);
            false in s.results && s.fail.None? ==> Unpacked(s.delivered, all, unpack) && |s.delivered| == |all|
  {
    FalseWithoutErrorMeansDrained(all, cap, schedule, n, unpack);
    NilComesLast(all, cap, schedule, n, unpack);
  }

  lemma StepKeepsNoError(all: seq<Log>, s: Iter, turn: Turn, unpack: Log -> Result<Fields>)
    requires Inv(all, s, unpack) && s.fail.None? && !s.feed.err.Raised?
    requires !(turn.Env? && turn.action.Break?)
    requires forall log | log in all :: unpack(log).Ok?
    ensures Step(s, turn, unpack).fail.None? && !Step(s, turn, unpack).feed.err.Raised?
  {
    if s.feed.buffer != [] {
      assert s.feed.buffer[0] in s.received + s.feed.buffer + s.feed.pending;
    }
  }

  // With no subscription error and every log unpacking, Error stays nil.
  lemma {:induction false} NoErrorWithoutCause(
    all: seq<Log>, cap: nat, schedule: seq<Turn>, n: nat, unpack: Log -> Result<Fields>)
    requires n <= |schedule|
    requires forall turn | turn in schedule :: !(turn.Env? && turn.action.Break?)
    requires forall log | log in all :: unpack(log).Ok?
    ensures var s := After(all, cap, schedule, n, unpack); s.fail.None? && !s.feed.err.Raised?
  {
    if n > 0 {
      NoErrorWithoutCause(all, cap, schedule, n - 1, unpack);
      ReachableInv(all, cap, schedule, n - 1, unpack);
      assert schedule[n - 1] in schedule;
      StepKeepsNoError(all, After(all, cap, schedule, n - 1, unpack), schedule[n - 1], unpack);
    }
  }

  // A producer that only sends its logs and then signals nil is read to the end: Next
  // returns true exactly once for every log before it first returns false.
  lemma DeliversEverything(all: seq<Log>, cap: nat, schedule: seq<Turn>, n: nat, unpack: Log -> Result<Fields>)
    requires n <= |schedule|
    requires forall turn | turn in schedule :: turn.Env? ==> turn.action == Produce || turn.action == Finish
    requires forall log | log in all :: unpack(log).Ok?
    ensures var s := After(all, cap, schedule, n, unpack);
            && s.fail.None?
            && (false in s.results ==> Unpacked(s.delivered, all, unpack) && |s.delivered| == |all| == Trues(s.results))
  {
    NoErrorWithoutCause(all, cap, schedule, n, unpack);
    FalseWithoutErrorMeansComplete(all, cap, schedule, n, unpack);
    DeliveredIsAPrefix(all, cap, schedule, n, unpack);
  }

  lemma {:induction false} OnlyTrues(results: seq<bool>)
    requires false !in results
    ensures Trues(results) == |results|
  {
    if results != [] {
      OnlyTrues(results[..|results| - 1]);
      assert results[|results| - 1] in results;
    }
  }

  // Hence a user who has called Next once more than there are logs has seen them all.
  lemma EnoughCallsDeliverEverything(
    all: seq<Log>, cap: nat, schedule: seq<Turn>, n: nat, unpack: Log -> Result<Fields>)
    requires n <= |schedule|
    requires forall turn | turn in schedule :: turn.Env? ==> turn.action == Produce || turn.action == Finish
    requires forall log | log in all :: unpack(log).Ok?
    requires |After(all, cap, schedule, n, unpack).results| > |all|
    ensures var s := After(all, cap, schedule, n, unpack);
            Unpacked(s.delivered, all, unpack) && |s.delivered| == |all|
  {
    DeliversEverything(all, cap, schedule, n, unpack);
    DeliveredIsAPrefix(all, cap, schedule, n, unpack);
    if false !in After(all, cap, schedule, n, unpack).results {
      OnlyTrues(After(all, cap, schedule, n, unpack).results);
    }
  }

  // What Error may report: an error the subscription raised, or the unpacking error of the
  // last log taken from the channel. `past` holds the turns so far.
  ghost predicate Explained(s: Iter, past: seq<Turn>, unpack: Log -> Result<Fields>) {
    && (forall e :: s.feed.err == Raised(e) ==> Env(Break(e)) in past)
    && (s.fail.Some? ==>
          || Env(Break(s.fail.value)) in past
          || (|s.received| == |s.delivered| + 1 && unpack(s.received[|s.delivered|]) == Err(s.fail.value)))
  }

  lemma StepKeepsExplained(all: seq<Log>, s: Iter, past: seq<Turn>, turn: Turn, unpack: Log -> Result<Fields>)
    requires Inv(all, s, unpack) && Explained(s, past, unpack)
    ensures Explained(Step(s, turn, unpack), past + [turn], unpack)
  {
  }

  lemma {:induction false} ErrorIsExplained(
    all: seq<Log>, cap: nat, schedule: seq<Turn>, n: nat, unpack: Log -> Result<Fields>)
    requires n <= |schedule|
    ensures Explained(After(all, cap, schedule, n, unpack), schedule[..n], unpack)
  {
    if n > 0 {
      ErrorIsExplained(all, cap, schedule, n - 1, unpack);
      ReachableInv(all, cap, schedule, n - 1, unpack);
      assert schedule[..n] == schedule[..n - 1] + [schedule[n - 1]];
      StepKeepsExplained(all, After(all, cap, schedule, n - 1, unpack), schedule[..n - 1], schedule[n - 1], unpack);
    }
  }

  lemma FailIsSticky(s: Iter, turn: Turn, unpack: Log -> Result<Fields>)
    requires s.fail.Some? && s.phase != Selecting
    ensures var u := Step(s, turn, unpack);
            && u.fail == s.fail && u.delivered == s.delivered && u.phase != Selecting
            && (u.results == s.results || u.results == s.results + [false])
  {
  }

  // A failure is final: it is never replaced, nothing more is delivered, and every result
  // recorded from then on is false.
  lemma {:induction false} FailIsForever(
    s: Iter, schedule: seq<Turn>, i: nat, j: nat, unpack: Log -> Result<Fields>)
    requires i <= j <= |schedule|
    requires s.fail.Some? && s.phase != Selecting
    ensures var u := Exec(s, schedule, i, j, unpack);
            && u.fail == s.fail && u.delivered == s.delivered && u.phase != Selecting
            && s.results <= u.results
            && forall k | |s.results| <= k < |u.results| :: !u.results[k]
    decreases j
  {
    if i < j {
      FailIsForever(s, schedule, i, j - 1, unpack);
      FailIsSticky(Exec(s, schedule, i, j - 1, unpack), schedule[j - 1], unpack);
    }
  }

  // What a run makes of a feed that has ended: the producer sends nothing more, and the logs
  // in the channel are all that is still taken from it and delivered.
  ghost predicate OnlyDrains(s: Iter, u: Iter) {
    && u.feed.err != Quiet && u.feed.pending == s.feed.pending
    && u.received + u.feed.buffer == s.received + s.feed.buffer
    && |u.delivered| + |u.feed.buffer| <= |s.delivered| + |s.feed.buffer|
  }

  lemma TakeDrains(s: Iter, unpack: Log -> Result<Fields>)
    requires s.feed.err != Quiet && s.feed.buffer != []
    ensures OnlyDrains(s, TakeLog(s, unpack))
  {
    var log, rest := s.feed.buffer[0], s.feed.buffer[1..];
    assert s.received + [log] + rest == s.received + ([log] + rest);
    assert [log] + rest == s.feed.buffer;
  }

  lemma EndedFeedStep(s: Iter, turn: Turn, unpack: Log -> Result<Fields>)
    requires s.feed.err != Quiet
    ensures OnlyDrains(s, Step(s, turn, unpack))
  {
    if s.feed.buffer != [] {
      TakeDrains(s, unpack);
    }
  }

  // Once the subscription has ended, by Close or otherwise, only what is in the channel is
  // still delivered.
  lemma {:induction false} EndedFeedSendsNothing(
    s: Iter, schedule: seq<Turn>, i: nat, j: nat, unpack: Log -> Result<Fields>)
    requires s.feed.err != Quiet && i <= j <= |schedule|
    ensures OnlyDrains(s, Exec(s, schedule, i, j, unpack))
    decreases j
  {
    if i < j {
      EndedFeedSendsNothing(s, schedule, i, j - 1, unpack);
      EndedFeedStep(Exec(s, schedule, i, j - 1, unpack), schedule[j - 1], unpack);
    }
  }

  // ---------------------------------------------------------------- progress

  ghost function Measure(s: Iter): nat {
    3 * |s.feed.pending| + 2 * |s.feed.buffer|
    + (if s.feed.err == Quiet then 2 else 1)
    + (if s.done then 0 else 2)
    + (match s.phase case Idle => 0 case Entered => 2 case Selecting => 1)
  }

  // A turn other than a new call either changes nothing or uses up some of the measure.
  lemma EveryTurnProgresses(s: Iter, turn: Turn, unpack: Log -> Result<Fields>)
    requires turn != Call && (s.phase == Selecting ==> !s.done)
    ensures Step(s, turn, unpack) == s || Measure(Step(s, turn, unpack)) < Measure(s)
  {
  }

  // A call in progress is never stuck: some turn of the producer or of the call itself
  // changes the state.
  lemma SomeTurnIsPossible(s: Iter, unpack: Log -> Result<Fields>) returns (turn: Turn)
    requires s.phase != Idle && s.feed.cap > 0
    ensures turn in {Env(Produce), Env(Finish), Go(PickLog), Go(PickErr)}
    ensures Step(s, turn, unpack) != s
  {
    if s.phase == Entered {
      turn := Go(PickLog);
    } else if s.feed.buffer != [] {
      turn := Go(PickLog);
    } else if s.feed.err != Quiet {
      turn := Go(PickErr);
    } else if s.feed.pending != [] {
      turn := Env(Produce);
      assert Act(s.feed, Produce).buffer != s.feed.buffer;
    } else {
      turn := Env(Finish);
    }
  }

  // A run in which every turn changes the state and no call is added is no longer than the
  // measure it uses up.
  lemma {:induction false} BusyRunsAreBounded(
    all: seq<Log>, s: Iter, schedule: seq<Turn>, j: nat, unpack: Log -> Result<Fields>)
    requires Inv(all, s, unpack) && j <= |schedule| && Call !in schedule
    requires forall i | 0 <= i < j :: Exec(s, schedule, 0, i + 1, unpack) != Exec(s, schedule, 0, i, unpack)
    ensures Inv(all, Exec(s, schedule, 0, j, unpack), unpack)
    ensures j + Measure(Exec(s, schedule, 0, j, unpack)) <= Measure(s)
  {
    if j > 0 {
      BusyRunsAreBounded(all, s, schedule, j - 1, unpack);
      var u := Exec(s, schedule, 0, j - 1, unpack);
      assert schedule[j - 1] in schedule;
      assert Exec(s, schedule, 0, (j - 1) + 1, unpack) != u;
      EveryTurnProgresses(u, schedule[j - 1], unpack);
      StepKeepsInv(all, u, schedule[j - 1], unpack);
    }
  }

  // Within any k turns the producer gets to send and to finish, and the call in progress to
  // try either case of the select.
  ghost predicate Fair(schedule: seq<Turn>, k: nat) {
    forall i: nat | i + k <= |schedule| :: FairFrom(schedule, i, k)
  }

  ghost predicate FairFrom(schedule: seq<Turn>, i: nat, k: nat)
    requires i + k <= |schedule|
  {
    && Occurs(schedule, i, k, Env(Produce)) && Occurs(schedule, i, k, Env(Finish))
    && Occurs(schedule, i, k, Go(PickLog)) && Occurs(schedule, i, k, Go(PickErr))
  }

  ghost predicate Occurs(schedule: seq<Turn>, i: nat, k: nat, turn: Turn)
    requires i + k <= |schedule|
  {
    exists p | i <= p < i + k :: schedule[p] == turn
  }

  lemma FairTurn(schedule: seq<Turn>, i: nat, k: nat, turn: Turn) returns (p: nat)
    requires Fair(schedule, k) && i + k <= |schedule|
    requires turn in {Env(Produce), Env(Finish), Go(PickLog), Go(PickErr)}
    ensures i <= p < i + k && schedule[p] == turn
  {
    assert FairFrom(schedule, i, k) && Occurs(schedule, i, k, turn);
    p :| i <= p < i + k && schedule[p] == turn;
  }

  ghost predicate Changes(s: Iter, turn: Turn, unpack: Log -> Result<Fields>) {
    Step(s, turn, unpack) != s
  }

  lemma FirstSuch(turns: seq<Turn>, i: nat, p: nat, good: Turn -> bool) returns (q: nat)
    requires i <= p < |turns| && good(turns[p])
    ensures i <= q <= p && good(turns[q]) && forall r | i <= r < q :: !good(turns[r])
  {
    q := i;
    while !good(turns[q])
      invariant i <= q <= p && forall r | i <= r < q :: !good(turns[r])
      decreases p - q
    {
      q := q + 1;
    }
  }

  lemma {:induction false} NothingChanges(
    s: Iter, schedule: seq<Turn>, i: nat, q: nat, unpack: Log -> Result<Fields>)
    requires i <= q <= |schedule|
    requires forall r | i <= r < q :: !Changes(s, schedule[r], unpack)
    ensures Exec(s, schedule, i, q, unpack) == s
  {
    if i < q {
      NothingChanges(s, schedule, i, q - 1, unpack);
      assert !Changes(s, schedule[q - 1], unpack);
    }
  }

  // A fair schedule changes the state of a call in progress within k turns.
  lemma ChangeComes(s: Iter, schedule: seq<Turn>, i: nat, k: nat, unpack: Log -> Result<Fields>) returns (q: nat)
    requires s.feed.cap > 0 && s.phase != Idle
    requires Fair(schedule, k) && i + k <= |schedule|
    ensures i <= q < i + k && Changes(s, schedule[q], unpack)
    ensures Exec(s, schedule, i, q, unpack) == s
  {
    var turn := SomeTurnIsPossible(s, unpack);
    var p := FairTurn(schedule, i, k, turn);
    q := FirstSuch(schedule, i, p, x => Changes(s, x, unpack));
    NothingChanges(s, schedule, i, q, unpack);
  }

  lemma ChangeProgresses(all: seq<Log>, s: Iter, turn: Turn, unpack: Log -> Result<Fields>)
    requires Inv(all, s, unpack) && s.phase != Idle && Changes(s, turn, unpack)
    ensures var u := Step(s, turn, unpack);
            Inv(all, u, unpack) && u.feed.cap == s.feed.cap && Measure(u) < Measure(s)
  {
    EveryTurnProgresses(s, turn, unpack);
    StepKeepsInv(all, s, turn, unpack);
  }

  // Hence it uses up some of the measure.
  lemma FairProgress(
    all: seq<Log>, s: Iter, schedule: seq<Turn>, i: nat, k: nat, unpack: Log -> Result<Fields>) returns (j: nat)
    requires Inv(all, s, unpack) && s.feed.cap > 0 && s.phase != Idle
    requires Fair(schedule, k) && i + k <= |schedule|
    ensures i < j <= i + k
    ensures var u := Exec(s, schedule, i, j, unpack);
            Inv(all, u, unpack) && u.feed.cap > 0 && Measure(u) < Measure(s)
  {
    var q := ChangeComes(s, schedule, i, k, unpack);
    ChangeProgresses(all, s, schedule[q], unpack);
    j := q + 1;
  }

  // Under a fair schedule, with any other turns in between, a call returns within k turns
  // for each unit of the measure.
  lemma {:induction false} FairCallsReturn(
    all: seq<Log>, s: Iter, schedule: seq<Turn>, i: nat, k: nat, unpack: Log -> Result<Fields>) returns (n: nat)
    requires Inv(all, s, unpack) && s.feed.cap > 0
    requires Fair(schedule, k) && i + k * Measure(s) <= |schedule|
    ensures i <= n <= i + k * Measure(s)
    ensures Exec(s, schedule, i, n, unpack).phase == Idle
    decreases Measure(s)
  {
    n := i;
    MulMonotone(k, 0, Measure(s));
    if s.phase != Idle {
      MulMonotone(k, 0, Measure(s) - 1);
      var j := FairProgress(all, s, schedule, i, k, unpack);
      var u := Exec(s, schedule, i, j, unpack);
      MulMonotone(k, Measure(u), Measure(s) - 1);
      n := FairCallsReturn(all, u, schedule, j, k, unpack);
      ExecJoin(s, schedule, i, j, n, unpack);
    }
  }

  lemma MulMonotone(k: nat, a: nat, b: nat)
    requires a <= b
    ensures k * a <= k * b
    ensures k * (b + 1) == k * b + k
  {
  }

  // Every call of Next can return from every reachable state, within the measure.
  lemma {:induction false} NextReturns(all: seq<Log>, s: Iter, unpack: Log -> Result<Fields>)
    returns (schedule: seq<Turn>)
    requires Inv(all, s, unpack) && s.feed.cap > 0
    ensures Exec(s, schedule, 0, |schedule|, unpack).phase == Idle
    ensures |schedule| <= Measure(s) && Call !in schedule
    decreases Measure(s)
  {
    if s.phase == Idle {
      schedule := [];
    } else {
      var turn := SomeTurnIsPossible(s, unpack);
      EveryTurnProgresses(s, turn, unpack);
      StepKeepsInv(all, s, turn, unpack);
      var rest := NextReturns(all, Step(s, turn, unpack), unpack);
      schedule := [turn] + rest;
      ExecCons(s, turn, rest, |rest|, unpack);
    }
  }

  lemma {:induction false} ExecCons(s: Iter, turn: Turn, rest: seq<Turn>, n: nat, unpack: Log -> Result<Fields>)
    requires n <= |rest|
    ensures Exec(s, [turn] + rest, 0, n + 1, unpack) == Exec(Step(s, turn, unpack), rest, 0, n, unpack)
  {
    if n == 0 {
      assert Exec(s, [turn] + rest, 0, 0, unpack) == s;
    } else {
      ExecCons(s, turn, rest, n - 1, unpack);
    }
  }

  lemma {:induction false} ExecJoin(s: Iter, schedule: seq<Turn>, i: nat, m: nat, j: nat, unpack: Log -> Result<Fields>)
    requires i <= m <= j <= |schedule|
    ensures Exec(s, schedule, i, j, unpack) == Exec(Exec(s, schedule, i, m, unpack), schedule, m, j, unpack)
    decreases j
  {
    if m < j {
      ExecJoin(s, schedule, i, m, j - 1, unpack);
    }
  }

  // While a call is in progress, a turn that is not its own only moves the producer.
  lemma ForeignTurn(s: Iter, turn: Turn, unpack: Log -> Result<Fields>)
    requires s.phase != Idle && !turn.Go?
    ensures Step(s, turn, unpack) == if turn.Env? then s.(feed := Act(s.feed, turn.action)) else s
  {
  }

  // ---------------------------------------------------------------- the object

  class EventIterator {
    var Event: Option<EventOf>
    var done: bool
    var fail: Option<Error>
    var feed: Feed
    const unpack: Log -> Result<Fields>

    ghost var phase: Phase
    ghost var received: seq<Log>
    ghost var delivered: seq<EventOf>
    ghost var results: seq<bool>

    ghost function State(): Iter
      reads this
    {
      Iter(feed, Event, done, fail, phase, received, delivered, results)
    }

    // What a call, or a part of one, has done to the fields a user reads. True means that one
    // more log was taken, and Event holds it with its fields; false, that none was delivered.
    ghost predicate Shown(b: Option<bool>, delivered0: seq<EventOf>, received0: seq<Log>)
      reads this
    {
      match b
      case None => delivered == delivered0 && received == received0
      case Some(true) =>
        && Event.Some? && Event.value.Event? && fail.None?
        && delivered == delivered0 + [Event.value] && received == received0 + [Event.value.raw]
        && unpack(Event.value.raw) == Ok(Event.value.fields)
      case Some(false) =>
        && delivered == delivered0
        && if received == received0 then fail.Some? || (done && feed.buffer == [])
           else
             && |received| == |received0| + 1 && fail.Some? && unpack(received[|received0|]) == Err(fail.value)
             && Event == Some(Blank)
    }

    constructor (logs: seq<Log>, cap: nat, unpack: Log -> Result<Fields>)
      ensures State() == Open(logs, cap) && this.unpack == unpack
    {
      Event, done, fail := None, false, None;
      feed := Feed(logs, [], cap, Quiet);
      this.unpack := unpack;
      phase, received, delivered, results := Idle, [], [], [];
    }

    // The producer runs until the call's next turn, or until the schedule ends.
    method Interfere(schedule: seq<Turn>, i: nat) returns (j: nat)
      requires i <= |schedule| && phase != Idle
      modifies this`feed
      ensures i <= j <= |schedule| && (j < |schedule| ==> schedule[j].Go?)
      ensures State() == Exec(old(State()), schedule, i, j, unpack)
    {
      j := i;
      while j < |schedule| && !schedule[j].Go?
        invariant i <= j <= |schedule|
        invariant State() == Exec(old(State()), schedule, i, j, unpack)
      {
        ForeignTurn(State(), schedule[j], unpack);
        if schedule[j].Env? {
          feed := Act(feed, schedule[j].action);
        }
        j := j + 1;
      }
    }

    // Receive a log that is in the channel and unpack it.
    method Receive() returns (b: bool)
      requires feed.buffer != [] && fail.None?
      modifies this
      ensures State() == TakeLog(old(State()), unpack)
      ensures b <==> unpack(old(feed).buffer[0]).Ok?
      ensures Shown(Some(b), old(delivered), old(received))
    {
      var log := feed.buffer[0];
      feed := feed.(buffer := feed.buffer[1..]);
      received := received + [log];
      Event := Some(Blank);
      var fields := unpack(log);
      if fields.Err? {
        fail := Some(fields.error);
        results, phase := results + [false], Idle;
        return false;
      }
      Event := Some(EventOf.Event(fields.value, log));
      delivered := delivered + [Event.value];
      results, phase := results + [true], Idle;
      return true;
    }

    // The first turn of a call: fail, or poll what is left in the channel once the
    // subscription has ended, or go on to the blocking select.
    method Enter(ghost pick: Pick) returns (b: Option<bool>)
      requires phase == Entered
      modifies this
      ensures State() == Step(old(State()), Go(pick), unpack)
      ensures done == old(done)
      ensures b.Some? ==> phase == Idle && results == old(results) + [b.value]
      ensures Shown(b, old(delivered), old(received))
      ensures b.None? ==> phase == Selecting && results == old(results) && !done && fail.None?
    {
      if fail.Some? {
        results, phase := results + [false], Idle;
        return Some(false);
      }
      if done {
        if feed.buffer != [] {
          var ok := Receive();
          return Some(ok);
        }
        results, phase := results + [false], Idle;
        return Some(false);
      }
      phase := Selecting;
      return None;
    }

    // Wait for the first turn of a call and take it.
    method Begin(schedule: seq<Turn>, i: nat) returns (b: Option<bool>, selecting: bool, j: nat)
      requires i <= |schedule| && phase == Entered
      modifies this
      ensures i <= j <= |schedule|
      ensures done == old(done) && (selecting <==> phase == Selecting)
      ensures State() == Exec(old(State()), schedule, i, j, unpack)
      ensures b.Some? ==> phase == Idle && results == old(results) + [b.value]
      ensures Shown(b, old(delivered), old(received))
      ensures b.None? ==> results == old(results)
                          && (if phase == Selecting then !done && fail.None? else phase == Entered && j == |schedule|)
    {
      j := Interfere(schedule, i);
      if j == |schedule| {
        return None, false, j;
      }
      b := Enter(schedule[j].pick);
      selecting, j := b.None?, j + 1;
    }

    // Next runs against the schedule from position i and consumes it up to j. It returns
    // None when the schedule ends while it is still blocked. The self-call terminates
    // because `done` was false and is now true.
    method Next(schedule: seq<Turn>, i: nat) returns (b: Option<bool>, j: nat)
      requires i <= |schedule| && phase != Selecting
      modifies this
      ensures i <= j <= |schedule|
      ensures State() == Exec(Step(old(State()), Call, unpack), schedule, i, j, unpack)
      ensures b.Some? ==> phase == Idle && results == old(results) + [b.value]
      ensures Shown(b, old(delivered), old(received))
      ensures b.None? ==> phase != Idle && j == |schedule|
      decreases !done, 1
    {
      phase := Entered;
      ghost var entry := State();
      var selecting;
      b, selecting, j := Begin(schedule, i);
      if selecting {
        ghost var mid := j;
        b, j := Select(schedule, j);
        ExecJoin(entry, schedule, i, mid, j, unpack);
      }
    }

    // One turn at the select: a ready case that the scheduler picks, or nothing.
    method TryCase(pick: Pick) returns (b: Option<bool>)
      requires phase == Selecting && !done && fail.None?
      modifies this
      ensures State() == Step(old(State()), Go(pick), unpack)
      ensures b.Some? ==> phase == Idle && results == old(results) + [b.value]
      ensures Shown(b, old(delivered), old(received))
      ensures b.None? ==> results == old(results)
                          && (if done then phase == Entered else phase == Selecting && fail.None?)
    {
      if pick == PickLog && feed.buffer != [] {
        var ok := Receive();
        return Some(ok);
      } else if pick == PickErr && feed.err != Quiet {
        done, fail := true, Verdict(feed.err);
        feed := feed.(err := Closed);
        phase := Entered;
      }
      return None;
    }

    // Wait for the call's next turn and take it.
    method Await(schedule: seq<Turn>, m: nat) returns (b: Option<bool>, j: nat)
      requires m <= |schedule| && phase == Selecting && !done && fail.None?
      modifies this
      ensures m <= j <= |schedule| && (j == m ==> b.None? && j == |schedule|)
      ensures State() == Exec(old(State()), schedule, m, j, unpack)
      ensures b.Some? ==> phase == Idle && results == old(results) + [b.value]
      ensures Shown(b, old(delivered), old(received))
      ensures b.None? ==> results == old(results)
                          && (if done then phase == Entered else phase == Selecting && fail.None?)
    {
      j := Interfere(schedule, m);
      if j == |schedule| {
        return None, j;
      }
      b := TryCase(schedule[j].pick);
      j := j + 1;
    }

    // The blocking select of Next.
    method Select(schedule: seq<Turn>, m: nat) returns (b: Option<bool>, j: nat)
      requires m <= |schedule| && phase == Selecting && !done && fail.None?
      modifies this
      ensures m <= j <= |schedule|
      ensures State() == Exec(old(State()), schedule, m, j, unpack)
      ensures b.Some? ==> phase == Idle && results == old(results) + [b.value]
      ensures Shown(b, old(delivered), old(received))
      ensures b.None? ==> phase != Idle && j == |schedule|
      decreases !done, 0
    {
      ghost var entry := State();
      b, j := None, m;
      while !done && b.None? && j < |schedule|
        invariant m <= j <= |schedule|
        invariant State() == Exec(entry, schedule, m, j, unpack)
        invariant b.Some? ==> phase == Idle && results == old(results) + [b.value]
        invariant Shown(b, old(delivered), old(received))
        invariant b.None? ==> results == old(results)
                              && (if done then phase == Entered else phase == Selecting && fail.None?)
        decreases |schedule| - j
      {
        ghost var from := j;
        b, j := Await(schedule, j);
        ExecJoin(entry, schedule, m, from, j, unpack);
      }
      if b.None? && done {
        ghost var from := j;
        b, j := Next(schedule, j);
        ExecJoin(entry, schedule, m, from, j, unpack);
      }
    }

    // Closing ends a subscription that has not ended yet and keeps an error that was not
    // read. Nothing is dropped: the logs in the channel can still be taken.
    method Close()
      modifies this`feed
      ensures State() == Step(old(State()), Env(Unsubscribe), unpack)
      ensures feed.err != Quiet && (feed.err == Closed || feed.err == old(feed.err))
      ensures old(feed.err) != Quiet ==> feed == old(feed)
      ensures feed.buffer == old(feed.buffer) && feed.pending == old(feed.pending)
    {
      feed := Act(feed, Unsubscribe);
    }

    method Error() returns (e: Option<Error>)
      ensures e == fail
    {
      e := fail;
    }
  }
}
