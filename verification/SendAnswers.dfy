// What a call of Send makes of the answers it gets: every event of every run is the record
// of one answer, consecutive events of consecutive answers, and the call ends as the answer
// after them says. Nothing here refers to the step function's own cases.
module SendAnswers {
  import opened Words
  import opened Environment
  import opened Slots
  import opened Signing
  import opened SendMachine
  import opened SendSafety
  import opened Interleaving

  // This answer is the one the event records.
  ghost predicate Answered(e: Event, r: Replies) {
    match e
    case Signed(tx) => r.signer == Ok(tx.hash)
    case Chosen(head, slots, _) => r.head == Ok(head) && r.slots == Ok(slots)
    case Quoted(_, gasPrice, blobPrice) => r.fee == Ok((gasPrice, blobPrice))
    case Reserved(_, id) => r.reserve == Ok(id)
    case NotReserved(_) => r.reserve.Err?
    case Submitted(_, _) => r.submit.Ok?
    case NotSubmitted(_, _) => r.submit.Err?
    case SawHead(head) => r.head == Ok(head)
    case LookedUp(_) => true
  }

  // The transaction is the one crafted from this answer, with a nonce of its own.
  ghost predicate CraftedFrom(c: TxCandidate, tx: Tx, r: Replies) {
    && !r.cancelled && Craft(c, r).Success? && !tx.content.OtherTx?
    && WithNonce(tx.content, 0) == Craft(c, r).value
  }

  // This answer ends the call in an error: no slot fits, no fee, or no head while waiting.
  ghost predicate Refuses(t: Thread, r: Replies) {
    match t.stage
    case Choosing => NoSlotFits(t.candidate, r.slots, r.head)
    case Quoting(_) => r.fee.Err?
    case Waiting(_) => r.head.Err?
    case _ => false
  }

  // The events from position p of the script on.
  ghost predicate EventsAnswered(trace: seq<Event>, script: seq<Replies>, p: nat) {
    && p + |trace| <= |script|
    && forall j | 0 <= j < |trace| :: Answered(trace[j], script[p + j])
  }

  // How a call stands after these events: running if they used up the script, returned with
  // the receipt of the last answer, or failed by the one after them.
  ghost predicate EndAnswered(t: Thread, script: seq<Replies>, p: nat)
    requires p + |t.trace| <= |script|
  {
    var n := p + |t.trace|;
    match t.status
    case Running => n == |script|
    case Returned(receipt) => n > 0 && receipt == script[n - 1].receipt
    case Failed => n < |script| && Refuses(t, script[n])
    case Crashed => false
  }

  // A call that has its transaction signed it on answer p, after crafting it from the one
  // before.
  ghost predicate Accounted(t: Thread, script: seq<Replies>, p: nat) {
    if t.tx.Some? then
      && 0 < p && EventsAnswered(t.trace, script, p) && EndAnswered(t, script, p)
      && CraftedFrom(t.candidate, t.tx.value, script[p - 1])
    else
      t.status == Running && t.stage.AwaitingSignature? ==>
        script != [] && MessageFrom(t.candidate, t.stage.message, script[|script| - 1])
  }

  ghost predicate MessageFrom(c: TxCandidate, m: TxData, r: Replies) {
    !r.cancelled && Craft(c, r) == Success(m) && !m.OtherTx? && m.nonce == 0
  }

  // ---------------------------------------------------------------- one step

  lemma StoppedStaysAccounted(t: Thread, script: seq<Replies>, p: nat, r: Replies)
    requires Accounted(t, script, p) && t.status != Running
    ensures Accounted(t, script + [r], p)
  {
  }

  // A step of a running call that has its transaction ends the call because of its answer,
  // or appends the event for it.
  lemma HolderFails(t: Thread, nonce: Option<uint64>, r: Replies)
    requires Inv(t) && t.tx.Some? && t.status == Running
    ensures
      var u := Step(t, nonce, r).thread;
      (u.status == Failed <==> Refuses(t, r)) && (u.status == Failed ==> u == t.(status := Failed))
  {
    NoSlotExactly(t.candidate, r.slots, r.head);
  }

  lemma HolderAnswers(t: Thread, nonce: Option<uint64>, r: Replies) returns (e: Event)
    requires Inv(t) && t.tx.Some? && t.status == Running && Step(t, nonce, r).thread.status != Failed
    ensures Answered(e, r)
    ensures
      var u := Step(t, nonce, r).thread;
      && u.tx == t.tx && u.candidate == t.candidate && u.trace == t.trace + [e]
      && (u.status == Running || u.status == Returned(r.receipt))
  {
    e := PreconfAnswers(t, t.tx.value, r);
  }

  lemma PreconfAnswers(t: Thread, tx: Tx, r: Replies) returns (e: Event)
    requires t.status == Running && (Position(t.stage) < 4 || t.stage.Waiting? || t.stage.Fetching?)
    requires PreconfStep(t, tx, r).status != Failed
    ensures Answered(e, r)
    ensures
      var u := PreconfStep(t, tx, r);
      && u.tx == t.tx && u.candidate == t.candidate && u.trace == t.trace + [e]
      && (u.status == Running || u.status == Returned(r.receipt))
  {
    e := PreconfStep(t, tx, r).trace[|t.trace|];
  }

  lemma HolderStaysAccounted(t: Thread, nonce: Option<uint64>, script: seq<Replies>, p: nat, r: Replies)
    requires Inv(t) && t.tx.Some? && t.status == Running && Accounted(t, script, p)
    ensures Accounted(Step(t, nonce, r).thread, script + [r], p)
  {
    var u := Step(t, nonce, r).thread;
    HolderFails(t, nonce, r);
    if u.status != Failed {
      var e := HolderAnswers(t, nonce, r);
      EventsGrow(t.trace, e, script, p, r);
    }
  }

  lemma EventsGrow(trace: seq<Event>, e: Event, script: seq<Replies>, p: nat, r: Replies)
    requires EventsAnswered(trace, script, p) && p + |trace| == |script| && Answered(e, r)
    ensures EventsAnswered(trace + [e], script + [r], p)
  {
  }

  lemma SigningIsAccounted(t: Thread, nonce: Option<uint64>, script: seq<Replies>, r: Replies)
    requires Inv(t) && t.tx.None? && t.status == Running && t.stage.AwaitingSignature?
    requires Accounted(t, script, 0) && Step(t, nonce, r).thread.tx.Some?
    ensures Accounted(Step(t, nonce, r).thread, script + [r], |script|)
  {
    SignConsumesExactlyOnSuccess(nonce, t.stage.message, r);
    var u := Step(t, nonce, r).thread;
    assert u.trace == [Signed(u.tx.value)];
  }

  // Before that, a step crafts a message from its answer, or none awaits a signature.
  lemma PreparingAnswers(t: Thread, nonce: Option<uint64>, script: seq<Replies>, r: Replies)
    requires Inv(t) && t.tx.None? && t.status == Running && Step(t, nonce, r).thread.tx.None?
    ensures Accounted(Step(t, nonce, r).thread, script + [r], 0)
  {
  }

  // Where the transaction was signed, if it is signed now.
  lemma StepIsAccounted(t: Thread, nonce: Option<uint64>, script: seq<Replies>, p: nat, r: Replies) returns (q: nat)
    requires Inv(t) && Accounted(t, script, p)
    ensures Accounted(Step(t, nonce, r).thread, script + [r], q)
  {
    q := p;
    if t.status != Running {
      StoppedStaysAccounted(t, script, p, r);
    } else if t.tx.Some? {
      HolderStaysAccounted(t, nonce, script, p, r);
    } else if Step(t, nonce, r).thread.tx.Some? {
      q := |script|;
      SigningIsAccounted(t, nonce, script, r);
    } else {
      PreparingAnswers(t, nonce, script, r);
    }
  }

  // ---------------------------------------------------------------- runs

  lemma {:induction false} RunIsAccounted(c: TxCandidate, nonce: Option<uint64>, script: seq<Replies>) returns (p: nat)
    ensures Accounted(Run(c, nonce, script).0, script, p)
  {
    p := 0;
    if script != [] {
      var init, r := script[..|script| - 1], script[|script| - 1];
      p := RunIsAccounted(c, nonce, init);
      RunKeepsInv(Start(c), nonce, init);
      var (t, n) := Run(c, nonce, init);
      p := StepIsAccounted(t, n, init, p, r);
      assert script == init + [r];
    }
  }

  // The answer that a turn adds to those of call i.
  ghost function NextAnswer(s: System, turn: Turn, i: nat): seq<Replies> {
    if turn.Go? && turn.tid == i && i < |s.threads| then [turn.replies] else []
  }

  // The answers that the turns of call i read in a schedule of many calls.
  ghost function AnswersTo(schedule: seq<Turn>, i: nat): seq<Replies> {
    if schedule == [] then []
    else
      var init, turn := schedule[..|schedule| - 1], schedule[|schedule| - 1];
      AnswersTo(init, i) + NextAnswer(ExecAll(init), turn, i)
  }

  lemma NoAnswersBeforeSpawn(schedule: seq<Turn>, i: nat)
    requires |ExecAll(schedule).threads| <= i
    ensures AnswersTo(schedule, i) == []
  {
    if schedule != [] {
      NoAnswersBeforeSpawn(schedule[..|schedule| - 1], i);
    }
  }

  lemma TurnIsAccounted(s: System, turn: Turn, i: nat, script: seq<Replies>, p: nat) returns (q: nat)
    requires i < |s.threads| && Inv(s.threads[i]) && Accounted(s.threads[i], script, p)
    ensures Accounted(Exec(s, turn).threads[i], script + NextAnswer(s, turn, i), q)
  {
    q := p;
    if turn.Go? && turn.tid == i {
      q := StepIsAccounted(s.threads[i], s.nonce, script, p, turn.replies);
    } else {
      assert script + NextAnswer(s, turn, i) == script;
    }
  }

  lemma SpawnedIsAccounted(s: System, turn: Turn, i: nat)
    requires |s.threads| <= i < |Exec(s, turn).threads|
    ensures Accounted(Exec(s, turn).threads[i], [] + NextAnswer(s, turn, i), 0)
  {
  }

  // In every interleaving every call is accounted for by its own answers alone.
  lemma {:induction false} EveryCallIsAccounted(schedule: seq<Turn>, i: nat) returns (p: nat)
    requires i < |ExecAll(schedule).threads|
    ensures Accounted(ExecAll(schedule).threads[i], AnswersTo(schedule, i), p)
  {
    var init, turn := schedule[..|schedule| - 1], schedule[|schedule| - 1];
    if i >= |ExecAll(init).threads| {
      NoAnswersBeforeSpawn(init, i);
      SpawnedIsAccounted(ExecAll(init), turn, i);
      p := 0;
    } else {
      ReachableInv(init);
      p := EveryCallIsAccounted(init, i);
      p := TurnIsAccounted(ExecAll(init), turn, i, AnswersTo(init, i), p);
    }
  }
}
