// How long a call of Send can take: preparation is bounded, and every further pass of the
// retry loop and every further poll has an answer of the environment to show for it.
module SendProgress {
  import opened Words
  import opened Environment
  import opened SendMachine
  import opened FavourableRuns
  import opened SendSafety

  // Lost reservations and failed submissions.
  ghost function Refusals(trace: seq<Event>): nat {
    if trace == [] then 0
    else
      var last := trace[|trace| - 1];
      Refusals(trace[..|trace| - 1]) + if last.NotReserved? || last.NotSubmitted? then 1 else 0
  }

  ghost function Polls(trace: seq<Event>): nat {
    if trace == [] then 0
    else Polls(trace[..|trace| - 1]) + if trace[|trace| - 1].SawHead? then 1 else 0
  }

  lemma CountsAppend(trace: seq<Event>, e: Event)
    ensures Refusals(trace + [e]) == Refusals(trace) + if e.NotReserved? || e.NotSubmitted? then 1 else 0
    ensures Polls(trace + [e]) == Polls(trace) + if e.SawHead? then 1 else 0
  {
    assert (trace + [e])[..|trace|] == trace;
  }

  // ---------------------------------------------------------------- one step

  ghost predicate Refused(t: Thread, r: Replies) {
    (t.stage.Reserving? && r.reserve.Err?) || (t.stage.Submitting? && r.submit.Err?)
  }

  // A step of a call that has its transaction and goes on afterwards records one event and
  // moves on by one position, unless it is refused or polls once more.
  lemma HolderRecords(t: Thread, nonce: Option<uint64>, r: Replies) returns (e: Event)
    requires Inv(t) && t.tx.Some? && t.status == Running && Step(t, nonce, r).thread.status == Running
    ensures
      var u := Step(t, nonce, r).thread;
      && u.tx == t.tx && u.trace == t.trace + [e]
      && (e.NotReserved? || e.NotSubmitted? <==> Refused(t, r))
      && (e.SawHead? <==> t.stage.Waiting?)
      && Position(u.stage) == if Refused(t, r) then 0 else if Position(t.stage) < 4 then Position(t.stage) + 1 else 4
  {
    var u := PreconfStep(t, t.tx.value, r);
    e := u.trace[|t.trace|];
  }

  lemma HolderSteps(t: Thread, nonce: Option<uint64>, r: Replies)
    requires Inv(t) && t.tx.Some? && t.status == Running && Step(t, nonce, r).thread.status == Running
    ensures
      var u := Step(t, nonce, r).thread;
      && u.tx == t.tx
      && Refusals(u.trace) == Refusals(t.trace) + (if Refused(t, r) then 1 else 0)
      && Polls(u.trace) == Polls(t.trace) + (if t.stage.Waiting? then 1 else 0)
      && Position(u.stage) == if Refused(t, r) then 0 else if Position(t.stage) < 4 then Position(t.stage) + 1 else 4
  {
    var e := HolderRecords(t, nonce, r);
    CountsAppend(t.trace, e);
  }

  // ---------------------------------------------------------------- the retry loop

  // A call in the retry loop has made at least three and at most four steps for each
  // refusal, and those of the pass it is in.
  lemma {:induction false} RetryLoopIsPaced(t: Thread, nonce: Option<uint64>, script: seq<Replies>)
    requires Inv(t) && t.status == Running && t.stage.Choosing?
    ensures
      var u := RunFrom(t, nonce, script).0;
      u.status == Running ==>
        var refusals := Refusals(u.trace) - Refusals(t.trace);
        && u.tx == t.tx && refusals >= 0
        && 3 * refusals + Position(u.stage) <= |script|
        && (Position(u.stage) < 4 ==> |script| <= 4 * refusals + Position(u.stage))
  {
    RunKeepsInv(t, nonce, script);
    if script != [] {
      var init := script[..|script| - 1];
      RetryLoopIsPaced(t, nonce, init);
      RunKeepsInv(t, nonce, init);
      var (v, n) := RunFrom(t, nonce, init);
      if Step(v, n, script[|script| - 1]).thread.status == Running {
        HolderSteps(v, n, script[|script| - 1]);
      }
    }
  }

  // A gateway with a slot on offer that refuses every reservation.
  ghost function Refusing(c: TxCandidate): Replies {
    Generous(Roomy(c)).(reserve := Err("taken"))
  }

  lemma RefusedPass(t: Thread, nonce: Option<uint64>) returns (t1: Thread, t2: Thread, t3: Thread)
    requires t.status == Running && t.stage.Choosing? && t.tx.Some?
    ensures Step(t, nonce, Refusing(t.candidate)) == Move(t1, nonce, None, None)
    ensures Step(t1, nonce, Refusing(t.candidate)) == Move(t2, nonce, None, None)
    ensures Step(t2, nonce, Refusing(t.candidate)) == Move(t3, nonce, None, None)
    ensures t3.status == Running && t3.stage.Choosing? && t3.tx == t.tx && t3.candidate == t.candidate
  {
    var r, tx := Refusing(t.candidate), t.tx.value;
    OfferIsTaken(t.candidate, Roomy(t.candidate));
    t1 := PreconfStep(t, tx, r);
    t2 := PreconfStep(t1, tx, r);
    t3 := PreconfStep(t2, tx, r);
  }

  // Such a gateway keeps the call in the loop for any number of passes: no bound on the
  // loop holds without one on the refusals.
  lemma {:induction false} RefusalsCanGoOn(t: Thread, nonce: Option<uint64>, n: nat) returns (script: seq<Replies>)
    requires t.status == Running && t.stage.Choosing? && t.tx.Some?
    ensures |script| == 3 * n
    ensures RunFrom(t, nonce, script).1 == nonce
    ensures var u := RunFrom(t, nonce, script).0;
            u.status == Running && u.stage.Choosing? && u.tx == t.tx && u.candidate == t.candidate
  {
    script := [];
    if n > 0 {
      script := RefusalsCanGoOn(t, nonce, n - 1);
      var u := RunFrom(t, nonce, script).0;
      var r := Refusing(t.candidate);
      var t1, t2, t3 := RefusedPass(u, nonce);
      RunStep(t, nonce, script, r);
      RunStep(t, nonce, script + [r], r);
      RunStep(t, nonce, script + [r] + [r], r);
      script := script + [r] + [r] + [r];
    }
  }

  // ---------------------------------------------------------------- the whole call

  // Sixty steps of preparation, four for each refusal and four for the last pass, and the
  // polls.
  ghost predicate WithinBudget(t: Thread, steps: nat) {
    t.status == Running && t.tx.Some? ==>
      && steps <= 60 + 4 * Refusals(t.trace) + Position(t.stage) + Polls(t.trace)
      && (Position(t.stage) < 4 ==> Polls(t.trace) == 0)
  }

  lemma SignedTrace(t: Thread, nonce: Option<uint64>, r: Replies)
    requires Inv(t) && t.tx.None? && Step(t, nonce, r).thread.tx.Some?
    ensures var u := Step(t, nonce, r).thread;
            u.stage == Choosing && u.trace == [Signed(u.tx.value)]
  {
  }

  lemma NothingCounted(tx: Tx)
    ensures Refusals([Signed(tx)]) == Polls([Signed(tx)]) == 0
  {
    CountsAppend([], Signed(tx));
    assert [] + [Signed(tx)] == [Signed(tx)];
  }

  lemma SigningIsWithinBudget(t: Thread, nonce: Option<uint64>, r: Replies, steps: nat)
    requires Inv(t) && t.tx.None? && Step(t, nonce, r).thread.tx.Some?
    requires steps < 60
    ensures WithinBudget(Step(t, nonce, r).thread, steps + 1)
  {
    SignedTrace(t, nonce, r);
    NothingCounted(Step(t, nonce, r).thread.tx.value);
  }

  lemma StepKeepsBudget(t: Thread, nonce: Option<uint64>, r: Replies, steps: nat)
    requires Inv(t) && t.tx.Some? && WithinBudget(t, steps)
    ensures WithinBudget(Step(t, nonce, r).thread, steps + 1)
  {
    if t.status == Running && Step(t, nonce, r).thread.status == Running {
      HolderSteps(t, nonce, r);
    }
  }

  // However the environment answers, a call that is still running has taken no more steps
  // than its refusals and polls account for.
  lemma {:induction false} StepsAreAccountedFor(c: TxCandidate, nonce: Option<uint64>, script: seq<Replies>)
    ensures var t := Run(c, nonce, script).0;
            && (t.status == Running && t.tx.None? ==> |script| < 60)
            && WithinBudget(t, |script|)
  {
    PreparationIsBounded(c, nonce, script);
    if script != [] {
      var init, r := script[..|script| - 1], script[|script| - 1];
      StepsAreAccountedFor(c, nonce, init);
      RunKeepsInv(Start(c), nonce, init);
      var (t, n) := Run(c, nonce, init);
      if t.tx.Some? {
        StepKeepsBudget(t, n, r, |init|);
      } else if t.status == Running && Step(t, n, r).thread.tx.Some? {
        SigningIsWithinBudget(t, n, r, |init|);
      }
    }
  }

  // The answers from position i up to j are heads below this bound.
  ghost predicate PollsBelow(script: seq<Replies>, i: int, j: int, bound: uint64) {
    0 <= i && j <= |script| && forall x | i <= x < j :: script[x].head.Ok? && script[x].head.value < bound
  }

  // The last answers of a call that is waiting are heads, all below slot+1 but the one that
  // ended the wait.
  ghost predicate PollsSeen(t: Thread, script: seq<Replies>) {
    t.status == Running ==>
      var first := |script| - Polls(t.trace);
      && (t.stage.Waiting? ==> PollsBelow(script, first, |script|, Inc64(t.stage.slot)))
      && (t.stage.Fetching? ==> first < |script| && PollsBelow(script, first, |script| - 1, Inc64(t.stage.slot)))
  }

  lemma {:induction false} PollsAreLast(c: TxCandidate, nonce: Option<uint64>, script: seq<Replies>)
    ensures PollsSeen(Run(c, nonce, script).0, script)
  {
    if script != [] {
      var init, r := script[..|script| - 1], script[|script| - 1];
      PollsAreLast(c, nonce, init);
      StepsAreAccountedFor(c, nonce, init);
      RunKeepsInv(Start(c), nonce, init);
      var (t, n) := Run(c, nonce, init);
      StepKeepsPollsSeen(t, n, init, r);
      assert script == init + [r];
    }
  }

  lemma StepKeepsPollsSeen(t: Thread, nonce: Option<uint64>, script: seq<Replies>, r: Replies)
    requires Inv(t) && PollsSeen(t, script) && WithinBudget(t, |script|)
    ensures PollsSeen(Step(t, nonce, r).thread, script + [r])
  {
    if t.tx.Some? && t.status == Running {
      HolderKeepsPollsSeen(t, nonce, script, r);
    }
  }

  lemma HolderKeepsPollsSeen(t: Thread, nonce: Option<uint64>, script: seq<Replies>, r: Replies)
    requires Inv(t) && t.tx.Some? && t.status == Running
    requires PollsSeen(t, script) && (Position(t.stage) < 4 ==> Polls(t.trace) == 0)
    ensures PollsSeen(Step(t, nonce, r).thread, script + [r])
  {
    var u := Step(t, nonce, r).thread;
    if u.status == Running {
      HolderSteps(t, nonce, r);
      if t.stage.Waiting? {
        PollsGrow(script, |script| - Polls(t.trace), Inc64(t.stage.slot), r);
      }
    }
  }

  lemma PollsGrow(script: seq<Replies>, i: int, bound: uint64, r: Replies)
    requires PollsBelow(script, i, |script|, bound)
    ensures PollsBelow(script + [r], i, |script|, bound)
    ensures r.head.Ok? && r.head.value < bound ==> PollsBelow(script + [r], i, |script| + 1, bound)
  {
  }

  // How far the head seen at position i is from this bound.
  ghost function Distance(script: seq<Replies>, i: int, bound: uint64): nat {
    if 0 <= i < |script| && script[i].head.Ok? && script[i].head.value < bound then bound - script[i].head.value else 0
  }

  // If the head never fails and advances within every k answers, a running call is within
  // sixty steps of preparation, four for each refusal and for the last pass, and k polls
  // for each slot between the head first seen in the wait and slot+1.
  lemma CallIsBounded(c: TxCandidate, nonce: Option<uint64>, script: seq<Replies>, k: nat)
    requires k > 0 && Advancing(script, k)
    ensures
      var t := Run(c, nonce, script).0;
      t.status == Running ==>
        |script| <= 60 + 4 * (Refusals(t.trace) + 1)
                    + if t.stage.Waiting? || t.stage.Fetching?
                      then k * Distance(script, |script| - Polls(t.trace), Inc64(t.stage.slot)) + 1
                      else 0
  {
    var t := Run(c, nonce, script).0;
    RunKeepsInv(Start(c), nonce, script);
    StepsAreAccountedFor(c, nonce, script);
    PollsAreLast(c, nonce, script);
    if t.status == Running && (t.stage.Waiting? || t.stage.Fetching?) {
      var end := if t.stage.Waiting? then |script| else |script| - 1;
      PollsEnd(script, |script| - Polls(t.trace), end, k, Inc64(t.stage.slot));
    }
  }

  // Advancing heads stay below a bound for at most k answers for each number up to it.
  lemma PollsEnd(script: seq<Replies>, i: nat, j: nat, k: nat, bound: uint64)
    requires k > 0 && Advancing(script, k) && i <= j <= |script| && PollsBelow(script, i, j, bound)
    ensures j - i <= k * Distance(script, i, bound)
  {
    var polls := script[i..j];
    MulNonNegative(k, Distance(script, i, bound));
    forall x | 0 <= x && x + k < |polls|
      ensures polls[x + k].head.value > polls[x].head.value
    {
      assert script[(i + x) + k].head.value > script[i + x].head.value;
    }
    if j - i > k * Distance(script, i, bound) {
      AdvancedAfter(polls, k, Distance(script, i, bound), k * Distance(script, i, bound));
    }
  }
}
