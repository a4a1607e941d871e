// The event watcher: a loop that forwards logs from a feed to a sink until the
// subscription ends or the user quits.
module Watchers {
  import opened Words
  import opened Feeds

  datatype Phase = Listening | Forwarding(event: EventOf) | Exited(result: Option<Error>)

  datatype Pick = PickLog | PickErr | PickQuit | PickSink

  // The scheduler lets the producer act, the user quit, the reader of the sink make room,
  // or the loop take a step; when several cases of a select are ready it decides which.
  datatype Turn = Env(action: Action) | Quit | MakeRoom | Go(pick: Pick)

  datatype Watch = Watch(
    feed: Feed, quit: bool, room: nat, phase: Phase, received: seq<Log>, forwarded: seq<EventOf>, unsubscribed: nat)

  function Open(logs: seq<Log>, cap: nat): Watch {
    Watch(Feed(logs, [], cap, Quiet), false, 0, Listening, [], [], 0)
  }

  // Every way out runs the deferred Unsubscribe.
  function Exit(s: Watch, result: Option<Error>): Watch {
    s.(phase := Exited(result), unsubscribed := s.unsubscribed + 1, feed := Act(s.feed, Unsubscribe))
  }

  function TakeErr(s: Watch): Watch {
    Exit(s.(feed := s.feed.(err := Closed)), Verdict(s.feed.err))
  }

  function TakeLog(s: Watch, unpack: Log -> Result<Fields>): Watch
    requires s.feed.buffer != []
  {
    var log := s.feed.buffer[0];
    var taken := s.(feed := s.feed.(buffer := s.feed.buffer[1..]), received := s.received + [log]);
    match unpack(log)
    case Err(e) => Exit(taken, Some(e))
    case Ok(fields) => taken.(phase := Forwarding(Event(fields, log)))
  }

  function LoopStep(s: Watch, pick: Pick, unpack: Log -> Result<Fields>): Watch {
    if s.phase.Exited? then s
    else if pick == PickErr && s.feed.err != Quiet then TakeErr(s)
    else if pick == PickQuit && s.quit then Exit(s, None)
    else if pick == PickLog && s.phase.Listening? && s.feed.buffer != [] then TakeLog(s, unpack)
    else if pick == PickSink && s.phase.Forwarding? && s.room > 0 then
      s.(phase := Listening, room := s.room - 1, forwarded := s.forwarded + [s.phase.event])
    else s
  }

  function Step(s: Watch, turn: Turn, unpack: Log -> Result<Fields>): Watch {
    match turn
    case Env(a) => s.(feed := Act(s.feed, a))
    case Quit => s.(quit := true)
    case MakeRoom => s.(room := s.room + 1)
    case Go(pick) => LoopStep(s, pick, unpack)
  }

  function Exec(s: Watch, schedule: seq<Turn>, i: nat, j: nat, unpack: Log -> Result<Fields>): Watch
    requires i <= j <= |schedule|
    decreases j
  {
    if i == j then s else Step(Exec(s, schedule, i, j - 1, unpack), schedule[j - 1], unpack)
  }

  function After(logs: seq<Log>, cap: nat, schedule: seq<Turn>, n: nat, unpack: Log -> Result<Fields>): Watch
    requires n <= |schedule|
  {
    Exec(Open(logs, cap), schedule, 0, n, unpack)
  }

  // ---------------------------------------------------------------- invariant

  // The one log, if any, that was taken but not forwarded.
  ghost predicate LastIsHeld(s: Watch, unpack: Log -> Result<Fields>) {
    && |s.received| == |s.forwarded| + 1
    && match s.phase
       case Listening => false
       case Forwarding(e) =>
         e.Event? && e.raw == s.received[|s.forwarded|] && unpack(e.raw) == Ok(e.fields)
       case Exited(_) => true
  }

  ghost predicate Inv(all: seq<Log>, s: Watch, unpack: Log -> Result<Fields>) {
    && Conserved(all, s.received, s.feed)
    && Unpacked(s.forwarded, s.received, unpack)
    && ((|s.received| == |s.forwarded| && !s.phase.Forwarding?) || LastIsHeld(s, unpack))
    && s.unsubscribed == (if s.phase.Exited? then 1 else 0)
    && (s.phase.Exited? ==> s.feed.err != Quiet)
  }

  lemma TakeKeepsInv(all: seq<Log>, s: Watch, unpack: Log -> Result<Fields>)
    requires Inv(all, s, unpack) && s.phase.Listening? && s.feed.buffer != []
    ensures Inv(all, TakeLog(s, unpack), unpack)
  {
    var log := s.feed.buffer[0];
    TakeConserves(all, s.received, s.feed);
    UnpackedAppend(s.forwarded, s.received, unpack, log);
    ActConserves(all, s.received + [log], s.feed.(buffer := s.feed.buffer[1..]), Unsubscribe);
  }

  lemma StepKeepsInv(all: seq<Log>, s: Watch, turn: Turn, unpack: Log -> Result<Fields>)
    requires Inv(all, s, unpack)
    ensures Inv(all, Step(s, turn, unpack), unpack)
  {
    match turn
    case Env(a) => ActConserves(all, s.received, s.feed, a);
    case Quit =>
    case MakeRoom =>
    case Go(pick) =>
      ActConserves(all, s.received, s.feed, Unsubscribe);
      if s.phase.Listening? && s.feed.buffer != [] {
        TakeKeepsInv(all, s, unpack);
      }
  }

  lemma {:induction false} ReachableInv(
    all: seq<Log>, cap: nat, schedule: seq<Turn>, n: nat, unpack: Log -> Result<Fields>)
    requires n <= |schedule|
    ensures Inv(all, After(all, cap, schedule, n, unpack), unpack)
  {
    if n > 0 {
      ReachableInv(all, cap, schedule, n - 1, unpack);
      StepKeepsInv(all, After(all, cap, schedule, n - 1, unpack), schedule[n - 1], unpack);
    }
  }

  // ---------------------------------------------------------------- main results

  // In every run the sink holds, in order and each once, the first of the logs received,
  // which are the first of the producer's; at most one received log was not forwarded, and
  // none when the loop listens to an exhausted feed; and the subscription is ended exactly
  // once, when the loop exits.
  lemma ForwardsAPrefix(all: seq<Log>, cap: nat, schedule: seq<Turn>, n: nat, unpack: Log -> Result<Fields>)
    requires n <= |schedule|
    ensures var s := After(all, cap, schedule, n, unpack);
            && Unpacked(s.forwarded, s.received, unpack) && s.received <= all
            && |s.forwarded| <= |s.received| <= |s.forwarded| + 1
            && (s.phase.Listening? ==> |s.received| == |s.forwarded|)
            && (s.phase.Listening? && s.feed.buffer == s.feed.pending == [] ==> |s.forwarded| == |all|)
            && s.unsubscribed == (if s.phase.Exited? then 1 else 0)
            && (s.phase.Exited? ==> s.feed.err != Quiet)
  {
    var s := After(all, cap, schedule, n, unpack);
    ReachableInv(all, cap, schedule, n, unpack);
    assert s.received <= s.received + s.feed.buffer <= all;
  }

  // The turn that ends the loop drops whatever it holds or has not read: all logs sent so far
  // were forwarded exactly if it was listening and the channel was empty.
  lemma NothingIsDroppedExactly(all: seq<Log>, cap: nat, schedule: seq<Turn>, n: nat, unpack: Log -> Result<Fields>)
    requires n < |schedule|
    requires !After(all, cap, schedule, n, unpack).phase.Exited?
    requires After(all, cap, schedule, n + 1, unpack).phase.Exited?
    ensures
      var s, u := After(all, cap, schedule, n, unpack), After(all, cap, schedule, n + 1, unpack);
      |u.forwarded| + |u.feed.pending| == |all| <==> s.phase.Listening? && s.feed.buffer == []
  {
    var s := After(all, cap, schedule, n, unpack);
    ReachableInv(all, cap, schedule, n, unpack);
    assert |s.received + s.feed.buffer + s.feed.pending| == |all|;
    ExitForwardsNothing(s, schedule[n], unpack);
  }

  lemma ExitForwardsNothing(s: Watch, turn: Turn, unpack: Log -> Result<Fields>)
    requires !s.phase.Exited? && Step(s, turn, unpack).phase.Exited?
    ensures Step(s, turn, unpack).forwarded == s.forwarded
    ensures Step(s, turn, unpack).feed.pending == s.feed.pending
  {
  }

  // The select takes the end of the feed while a log is in the channel, and the loop reports
  // success.
  lemma EndBeatsBufferedLog(log: Log, unpack: Log -> Result<Fields>)
    ensures
      var s := After([log], 1, [Env(Produce), Env(Finish), Go(PickErr)], 3, unpack);
      s.phase == Exited(None) && s.forwarded == [] && s.feed.buffer == [log]
  {
    var schedule := [Env(Produce), Env(Finish), Go(PickErr)];
    var s := Open([log], 1);
    assert Exec(s, schedule, 0, 0, unpack) == s;
    assert Exec(s, schedule, 0, 1, unpack).feed == Feed([], [log], 1, Quiet);
    assert Exec(s, schedule, 0, 2, unpack).feed == Feed([], [log], 1, Closed);
  }

  // Why the loop may have stopped: an error is the unpacking error of the last log received
  // or an error of the subscription; nil means that the user quit or the feed ended. `past`
  // holds the turns so far.
  ghost predicate Explained(s: Watch, past: seq<Turn>, unpack: Log -> Result<Fields>) {
    && (s.quit ==> Quit in past)
    && (forall e :: s.feed.err == Raised(e) ==> Env(Break(e)) in past)
    && (s.feed.err == Closed && !s.phase.Exited? ==> Env(Finish) in past || Env(Unsubscribe) in past)
    && (s.phase.Exited? ==>
          match s.phase.result
          case Some(e) =>
            || Env(Break(e)) in past
            || (|s.received| == |s.forwarded| + 1 && unpack(s.received[|s.forwarded|]) == Err(e))
          case None => Quit in past || Env(Finish) in past || Env(Unsubscribe) in past)
  }

  lemma StepKeepsExplained(all: seq<Log>, s: Watch, past: seq<Turn>, turn: Turn, unpack: Log -> Result<Fields>)
    requires Inv(all, s, unpack) && Explained(s, past, unpack)
    ensures Explained(Step(s, turn, unpack), past + [turn], unpack)
  {
  }

  lemma {:induction false} ExitIsExplained(
    all: seq<Log>, cap: nat, schedule: seq<Turn>, n: nat, unpack: Log -> Result<Fields>)
    requires n <= |schedule|
    ensures Explained(After(all, cap, schedule, n, unpack), schedule[..n], unpack)
  {
    if n > 0 {
      ExitIsExplained(all, cap, schedule, n - 1, unpack);
      ReachableInv(all, cap, schedule, n - 1, unpack);
      assert schedule[..n] == schedule[..n - 1] + [schedule[n - 1]];
      StepKeepsExplained(all, After(all, cap, schedule, n - 1, unpack), schedule[..n - 1], schedule[n - 1], unpack);
    }
  }

  // After the exit the loop does nothing more.
  lemma {:induction false} ExitIsFinal(s: Watch, schedule: seq<Turn>, i: nat, j: nat, unpack: Log -> Result<Fields>)
    requires i <= j <= |schedule| && s.phase.Exited?
    ensures var u := Exec(s, schedule, i, j, unpack);
            && u.phase == s.phase && u.received == s.received && u.forwarded == s.forwarded
            && u.unsubscribed == s.unsubscribed
    decreases j
  {
    if i < j {
      ExitIsFinal(s, schedule, i, j - 1, unpack);
    }
  }

  // The user can always stop the loop, even while the sink is blocked.
  lemma QuitAlwaysWorks(s: Watch, unpack: Log -> Result<Fields>)
    requires !s.phase.Exited?
    ensures Step(Step(s, Quit, unpack), Go(PickQuit), unpack).phase == Exited(None)
    ensures Step(Step(s, Quit, unpack), Go(PickQuit), unpack).forwarded == s.forwarded
  {
  }

  // Once the feed has ended, the loop is over as soon as a select has picked its error case,
  // even with an event in hand and no room in the sink, and it reports the error raised, or
  // nil. That holds unless it was over already.
  lemma {:induction false} FeedEndStopsTheLoop(
    s: Watch, schedule: seq<Turn>, i: nat, p: nat, j: nat, unpack: Log -> Result<Fields>)
    requires s.feed.err != Quiet && i <= p < j <= |schedule| && schedule[p] == Go(PickErr)
    requires !Exec(s, schedule, i, p, unpack).phase.Exited?
    ensures Exec(s, schedule, i, j, unpack).phase ==
            Exited(if s.feed.err.Raised? then Some(s.feed.err.error) else None)
    decreases j
  {
    if p < j - 1 {
      FeedEndStopsTheLoop(s, schedule, i, p, j - 1, unpack);
    } else {
      EndStays(s, schedule, i, p, unpack);
    }
  }

  lemma {:induction false} EndStays(s: Watch, schedule: seq<Turn>, i: nat, j: nat, unpack: Log -> Result<Fields>)
    requires s.feed.err != Quiet && i <= j <= |schedule|
    requires !Exec(s, schedule, i, j, unpack).phase.Exited?
    ensures Exec(s, schedule, i, j, unpack).feed.err == s.feed.err
    decreases j
  {
    if i < j {
      EndStaysStep(Exec(s, schedule, i, j - 1, unpack), schedule[j - 1], unpack);
      EndStays(s, schedule, i, j - 1, unpack);
    }
  }

  lemma EndStaysStep(s: Watch, turn: Turn, unpack: Log -> Result<Fields>)
    requires !Step(s, turn, unpack).phase.Exited?
    ensures !s.phase.Exited? && (s.feed.err != Quiet ==> Step(s, turn, unpack).feed.err == s.feed.err)
  {
  }

  // Once the user has quit, the loop is over as soon as a select has picked that case,
  // whatever happens before and after it.
  lemma {:induction false} QuitStopsTheLoop(
    s: Watch, schedule: seq<Turn>, i: nat, p: nat, j: nat, unpack: Log -> Result<Fields>)
    requires s.quit && i <= p < j <= |schedule| && schedule[p] == Go(PickQuit)
    ensures Exec(s, schedule, i, j, unpack).phase.Exited?
    ensures !Exec(s, schedule, i, p, unpack).phase.Exited? ==> Exec(s, schedule, i, j, unpack).phase == Exited(None)
    decreases j
  {
    if p < j - 1 {
      QuitStopsTheLoop(s, schedule, i, p, j - 1, unpack);
    } else {
      QuitStays(s, schedule, i, p, unpack);
    }
  }

  lemma {:induction false} QuitStays(s: Watch, schedule: seq<Turn>, i: nat, j: nat, unpack: Log -> Result<Fields>)
    requires s.quit && i <= j <= |schedule|
    ensures Exec(s, schedule, i, j, unpack).quit
    decreases j
  {
    if i < j {
      QuitStays(s, schedule, i, j - 1, unpack);
    }
  }

  // ---------------------------------------------------------------- the sink

  ghost function RoomsMade(schedule: seq<Turn>, n: nat): nat
    requires n <= |schedule|
  {
    if n == 0 then 0 else RoomsMade(schedule, n - 1) + if schedule[n - 1] == MakeRoom then 1 else 0
  }

  // The loop puts no more events into the sink than the reader has made room for.
  lemma {:induction false} SinkIsNeverOverrun(
    all: seq<Log>, cap: nat, schedule: seq<Turn>, n: nat, unpack: Log -> Result<Fields>)
    requires n <= |schedule|
    ensures var s := After(all, cap, schedule, n, unpack); |s.forwarded| + s.room == RoomsMade(schedule, n)
  {
    if n > 0 {
      SinkIsNeverOverrun(all, cap, schedule, n - 1, unpack);
      SinkStep(After(all, cap, schedule, n - 1, unpack), schedule[n - 1], unpack);
    }
  }

  lemma SinkStep(s: Watch, turn: Turn, unpack: Log -> Result<Fields>)
    ensures var u := Step(s, turn, unpack);
            |u.forwarded| + u.room == |s.forwarded| + s.room + if turn == MakeRoom then 1 else 0
  {
  }

  // What is left to do before everything is forwarded.
  ghost function Work(s: Watch): nat {
    4 * |s.feed.pending| + 3 * |s.feed.buffer| + (if s.phase.Forwarding? then 1 + (if s.room == 0 then 1 else 0) else 0)
  }

  // The logs of a feed that is still open, none of which fails to unpack.
  ghost predicate Clean(all: seq<Log>, s: Watch, unpack: Log -> Result<Fields>) {
    && Inv(all, s, unpack) && !s.phase.Exited? && s.feed.err == Quiet && s.feed.cap > 0
    && forall log | log in all :: unpack(log).Ok?
  }

  lemma NextUnpacks(all: seq<Log>, s: Watch, unpack: Log -> Result<Fields>)
    requires Clean(all, s, unpack) && s.feed.buffer != []
    ensures unpack(s.feed.buffer[0]).Ok?
  {
    assert s.feed.buffer[0] in s.received + s.feed.buffer + s.feed.pending;
  }

  // Some turn of the producer, the reader or the loop does part of the work.
  lemma WorkIsPossible(all: seq<Log>, s: Watch, unpack: Log -> Result<Fields>) returns (turn: Turn)
    requires Clean(all, s, unpack) && Work(s) > 0
    ensures Clean(all, Step(s, turn, unpack), unpack) && Work(Step(s, turn, unpack)) < Work(s)
  {
    if s.phase.Forwarding? {
      turn := if s.room == 0 then MakeRoom else Go(PickSink);
    } else if s.feed.buffer != [] {
      turn := Go(PickLog);
      NextUnpacks(all, s, unpack);
    } else {
      turn := Env(Produce);
    }
    StepKeepsInv(all, s, turn, unpack);
  }

  // From every such state the loop can go on to forward all logs and then end with nil.
  lemma {:induction false} AllCanBeForwarded(all: seq<Log>, s: Watch, unpack: Log -> Result<Fields>)
    returns (schedule: seq<Turn>)
    requires Clean(all, s, unpack)
    ensures var u := Exec(s, schedule, 0, |schedule|, unpack);
            u.phase == Exited(None) && Unpacked(u.forwarded, all, unpack) && |u.forwarded| == |all|
    decreases Work(s)
  {
    if Work(s) == 0 {
      schedule := [Env(Finish), Go(PickErr)];
      EndsWithNil(all, s, unpack);
    } else {
      var turn := WorkIsPossible(all, s, unpack);
      var rest := AllCanBeForwarded(all, Step(s, turn, unpack), unpack);
      schedule := [turn] + rest;
      ExecCons(s, turn, rest, |rest|, unpack);
    }
  }

  lemma EndsWithNil(all: seq<Log>, s: Watch, unpack: Log -> Result<Fields>)
    requires Clean(all, s, unpack) && Work(s) == 0
    ensures var u := Exec(s, [Env(Finish), Go(PickErr)], 0, 2, unpack);
            u.phase == Exited(None) && Unpacked(u.forwarded, all, unpack) && |u.forwarded| == |all|
  {
    var schedule := [Env(Finish), Go(PickErr)];
    var v := s.(feed := s.feed.(err := Closed));
    assert Exec(s, schedule, 0, 0, unpack) == s;
    assert Exec(s, schedule, 0, 1, unpack) == v;
    assert Step(v, Go(PickErr), unpack) == Exit(v, None);
    assert s.received + s.feed.buffer + s.feed.pending == s.received;
  }

  lemma {:induction false} ExecCons(s: Watch, turn: Turn, rest: seq<Turn>, n: nat, unpack: Log -> Result<Fields>)
    requires n <= |rest|
    ensures Exec(s, [turn] + rest, 0, n + 1, unpack) == Exec(Step(s, turn, unpack), rest, 0, n, unpack)
  {
    if n == 0 {
      assert Exec(s, [turn] + rest, 0, 0, unpack) == s;
    } else {
      ExecCons(s, turn, rest, n - 1, unpack);
    }
  }

  // ---------------------------------------------------------------- the loop

  class Watcher {
    var feed: Feed
    var quit: bool
    var room: nat
    var unsubscribed: nat
    var forwarded: seq<EventOf>
    const unpack: Log -> Result<Fields>

    ghost var phase: Phase
    ghost var received: seq<Log>

    ghost function State(): Watch
      reads this
    {
      Watch(feed, quit, room, phase, received, forwarded, unsubscribed)
    }

    constructor (logs: seq<Log>, cap: nat, unpack: Log -> Result<Fields>)
      ensures State() == Open(logs, cap) && this.unpack == unpack
    {
      feed := Feed(logs, [], cap, Quiet);
      quit, room, unsubscribed, forwarded := false, 0, 0, [];
      this.unpack := unpack;
      phase, received := Listening, [];
    }

    // Everybody else runs until the loop's next turn, or until the schedule ends.
    method Interfere(schedule: seq<Turn>, i: nat) returns (j: nat)
      requires i <= |schedule|
      modifies this`feed, this`quit, this`room
      ensures i <= j <= |schedule| && (j < |schedule| ==> schedule[j].Go?)
      ensures State() == Exec(old(State()), schedule, i, j, unpack)
    {
      j := i;
      while j < |schedule| && !schedule[j].Go?
        invariant i <= j <= |schedule|
        invariant State() == Exec(old(State()), schedule, i, j, unpack)
      {
        match schedule[j] {
          case Env(a) => feed := Act(feed, a);
          case Quit => quit := true;
          case MakeRoom => room := room + 1;
        }
        j := j + 1;
      }
    }

    // The deferred call.
    method Unsubscribe(result: Option<Error>)
      modifies this
      ensures State() == Exit(old(State()), result)
    {
      unsubscribed := unsubscribed + 1;
      feed := Act(feed, Action.Unsubscribe);
      phase := Exited(result);
    }

    // One turn at the outer select.
    method Listen(pick: Pick) returns (held: Option<EventOf>, exit: Option<Option<Error>>)
      requires phase == Listening
      modifies this
      ensures State() == Step(old(State()), Go(pick), unpack)
      ensures phase == match (held, exit)
                       case (_, Some(result)) => Exited(result)
                       case (Some(e), None) => Forwarding(e)
                       case (None, None) => Listening
    {
      held, exit := None, None;
      match pick {
        case PickLog =>
          if feed.buffer != [] {
            var log := feed.buffer[0];
            feed := feed.(buffer := feed.buffer[1..]);
            received := received + [log];
            var fields := unpack(log);
            if fields.Err? {
              Unsubscribe(Some(fields.error));
              return None, Some(Some(fields.error));
            }
            held := Some(Event(fields.value, log));
            phase := Forwarding(held.value);
          }
        case PickErr =>
          if feed.err != Quiet {
            var err := Verdict(feed.err);
            feed := feed.(err := Closed);
            Unsubscribe(err);
            exit := Some(err);
          }
        case PickQuit =>
          if quit {
            Unsubscribe(None);
            exit := Some(None);
          }
        case PickSink =>
      }
    }

    // One turn at the inner select, with an event to hand over.
    method Forward(pick: Pick, event: EventOf) returns (sent: bool, exit: Option<Option<Error>>)
      requires phase == Forwarding(event)
      modifies this
      ensures State() == Step(old(State()), Go(pick), unpack)
      ensures phase == if exit.Some? then Exited(exit.value) else if sent then Listening else Forwarding(event)
    {
      sent, exit := false, None;
      match pick {
        case PickSink =>
          if room > 0 {
            room, forwarded, sent := room - 1, forwarded + [event], true;
            phase := Listening;
          }
        case PickErr =>
          if feed.err != Quiet {
            var err := Verdict(feed.err);
            feed := feed.(err := Closed);
            Unsubscribe(err);
            exit := Some(err);
          }
        case PickQuit =>
          if quit {
            Unsubscribe(None);
            exit := Some(None);
          }
        case PickLog =>
      }
    }

    // The loop against a schedule; None when the schedule ends before the loop does.
    method Run(schedule: seq<Turn>) returns (exit: Option<Option<Error>>, j: nat)
      requires phase == Listening
      modifies this
      ensures j <= |schedule|
      ensures State() == Exec(old(State()), schedule, 0, j, unpack)
      ensures exit.Some? ==> phase == Exited(exit.value)
      ensures exit.None? ==> !phase.Exited? && j == |schedule|
    {
      ghost var start := State();
      var held: Option<EventOf> := None;
      exit, j := None, 0;
      while true
        invariant j <= |schedule|
        invariant State() == Exec(start, schedule, 0, j, unpack)
        invariant phase == if held.Some? then Forwarding(held.value) else Listening
        decreases |schedule| - j
      {
        ghost var from := j;
        j := Interfere(schedule, j);
        ExecJoin(start, schedule, 0, from, j, unpack);
        if j == |schedule| {
          return None, j;
        }
        var pick := schedule[j].pick;
        j := j + 1;
        if held.None? {
          held, exit := Listen(pick);
        } else {
          var sent;
          sent, exit := Forward(pick, held.value);
          if sent {
            held := None;
          }
        }
        if exit.Some? {
          return;
        }
      }
    }
  }

  lemma {:induction false} ExecJoin(
    s: Watch, schedule: seq<Turn>, i: nat, m: nat, j: nat, unpack: Log -> Result<Fields>)
    requires i <= m <= j <= |schedule|
    ensures Exec(s, schedule, i, j, unpack) == Exec(Exec(s, schedule, i, m, unpack), schedule, m, j, unpack)
    decreases j
  {
    if m < j {
      ExecJoin(s, schedule, i, m, j - 1, unpack);
    }
  }
}
