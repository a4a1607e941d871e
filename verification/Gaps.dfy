// Which of the nonces signed the gateway accepts, and which it can never accept any more.
// An accepted transaction cannot be executed before all lower nonces.
module Gaps {
  import opened Words
  import opened Environment
  import opened Slots
  import opened Signing
  import opened SendMachine
  import opened FavourableRuns
  import opened SendSafety
  import opened Interleaving

  // ---------------------------------------------------------------- acceptance

  // The gateway has accepted a transaction with this nonce.
  ghost predicate Accepted(s: System, n: uint64) {
    exists i | 0 <= i < |s.threads| :: AcceptedBy(s.threads[i], n)
  }

  ghost predicate AcceptedBy(t: Thread, n: uint64) {
    exists e | 0 <= e < |t.trace| :: t.trace[e].Submitted? && t.trace[e].tx.content.nonce == n
  }

  // The nonces signed so far.
  ghost predicate Used(s: System, n: uint64)
    requires CounterInv(s)
  {
    exists k | 0 <= k < |s.signed| :: n == Nth(s.fetched[0], k)
  }

  lemma {:induction false} AcceptedTraces(c: TxCandidate, tx: Tx, trace: seq<Event>)
    requires Linked(c, tx, trace)
    ensures Acceptances(trace) <= 1
    ensures Acceptances(trace) == 1 <==> exists e | 0 <= e < |trace| :: trace[e].Submitted?
    decreases |trace|
  {
    TraceBalance(c, tx, trace);
    var n := |trace|;
    if n > 0 {
      LinkedPrefix(c, tx, trace, n - 1);
      TraceBalance(c, tx, trace[..n - 1]);
      AcceptedTraces(c, tx, trace[..n - 1]);
      assert forall e | 0 <= e < n - 1 :: trace[..n - 1][e] == trace[e];
    }
  }

  // A call has one nonce accepted, that of its transaction, or none.
  lemma AcceptedByHolder(t: Thread, n: uint64)
    requires Inv(t)
    ensures AcceptedBy(t, n) <==> t.tx.Some? && t.tx.value.content.nonce == n && Acceptances(t.trace) == 1
  {
    if t.tx.Some? {
      AcceptedTraces(t.candidate, t.tx.value, t.trace);
      forall e | 0 <= e < |t.trace| && t.trace[e].Submitted?
        ensures t.trace[e].tx == t.tx.value
      {
        assert MayFollow(t.candidate, t.tx.value, t.trace[..e], t.trace[e]);
      }
    }
  }

  // A nonce is accepted exactly when the call that holds it got its submission through.
  lemma HolderDecides(s: System, i: nat, n: uint64)
    requires ThreadsInv(s) && CounterInv(s) && OwnerInv(s) && |s.signed| <= TWO_64
    requires i < |s.threads| && s.threads[i].tx.Some? && s.threads[i].tx.value.content.nonce == n
    ensures Accepted(s, n) <==> Acceptances(s.threads[i].trace) == 1
  {
    AcceptedByHolder(s.threads[i], n);
    if Accepted(s, n) {
      var j :| 0 <= j < |s.threads| && AcceptedBy(s.threads[j], n);
      AcceptedByHolder(s.threads[j], n);
      if i != j {
        HoldersDiffer(s, if i < j then i else j, if i < j then j else i);
      }
    }
  }

  // The accepted nonces are among those signed, and they are all of them exactly when every
  // holder got through: no call's acceptance stands in for another's.
  lemma AllAreAcceptedExactly(schedule: seq<Turn>)
    requires |ExecAll(schedule).signed| <= TWO_64
    ensures CounterInv(ExecAll(schedule))
    ensures var s := ExecAll(schedule);
            && (forall n | Accepted(s, n) :: Used(s, n))
            && ((forall n | Used(s, n) :: Accepted(s, n)) <==>
                forall i | 0 <= i < |s.threads| && s.threads[i].tx.Some? :: Acceptances(s.threads[i].trace) == 1)
  {
    var s := ExecAll(schedule);
    ReachableInv(schedule);
    forall n | Accepted(s, n)
      ensures Used(s, n)
    {
      var i :| 0 <= i < |s.threads| && AcceptedBy(s.threads[i], n);
      AcceptedByHolder(s.threads[i], n);
      HolderUses(s, i);
    }
    if forall n | Used(s, n) :: Accepted(s, n) {
      forall i | 0 <= i < |s.threads| && s.threads[i].tx.Some?
        ensures Acceptances(s.threads[i].trace) == 1
      {
        HolderUses(s, i);
        HolderDecides(s, i, s.threads[i].tx.value.content.nonce);
      }
    }
    if forall i | 0 <= i < |s.threads| && s.threads[i].tx.Some? :: Acceptances(s.threads[i].trace) == 1 {
      forall n | Used(s, n)
        ensures Accepted(s, n)
      {
        var k :| 0 <= k < |s.signed| && n == Nth(s.fetched[0], k);
        HolderDecides(s, s.signed[k].0, n);
      }
    }
  }

  lemma HolderUses(s: System, i: nat)
    requires CounterInv(s) && OwnerInv(s) && i < |s.threads| && s.threads[i].tx.Some?
    ensures Used(s, s.threads[i].tx.value.content.nonce)
  {
    var k: nat :| Owns(s.signed, k, i);
  }

  // A stopped call stays as it is.
  lemma {:induction false} StoppedForGood(schedule: seq<Turn>, more: seq<Turn>, i: nat)
    requires i < |ExecAll(schedule).threads| && ExecAll(schedule).threads[i].status != Running
    ensures var s := ExecAll(schedule + more);
            i < |s.threads| && s.threads[i] == ExecAll(schedule).threads[i]
    decreases |more|
  {
    if more == [] {
      assert schedule + more == schedule;
    } else {
      var init := more[..|more| - 1];
      StoppedForGood(schedule, init, i);
      assert (schedule + more)[..|schedule + more| - 1] == schedule + init;
    }
  }

  // ---------------------------------------------------------------- loss

  // This step gives up a transaction that was signed: no slot can be chosen for it, or the
  // fee of the chosen slot is not to be had.
  ghost predicate Loses(t: Thread, r: Replies) {
    && t.status == Running && t.tx.Some?
    && if t.stage.Choosing? then SlotFor(t.candidate, r.slots, r.head).None? else t.stage.Quoting? && r.fee.Err?
  }

  ghost predicate Lost(t: Thread) {
    t.tx.Some? && t.status == Failed && (t.stage.Choosing? || t.stage.Quoting?)
  }

  // A call that has its transaction stops without an acceptance exactly by such a step.
  lemma StepLosesExactly(t: Thread, nonce: Option<uint64>, r: Replies)
    requires Inv(t) && t.status == Running && t.tx.Some?
    ensures
      var u := Step(t, nonce, r).thread;
      && (u.status != Running && Acceptances(u.trace) == 0 <==> Loses(t, r))
      && (Lost(u) <==> Loses(t, r))
  {
    StepKeepsInv(t, nonce, r);
    ReservationsAreConserved(t);
    ReservationsAreConserved(Step(t, nonce, r).thread);
  }

  lemma StoppedHolderLostExactly(t: Thread)
    requires Inv(t) && t.status != Running && t.tx.Some?
    ensures Acceptances(t.trace) == 0 <==> Lost(t)
  {
    ReservationsAreConserved(t);
  }

  ghost predicate LostIn(s: System, i: nat) {
    i < |s.threads| && Lost(s.threads[i])
  }

  // The turn makes call i give up.
  ghost predicate TurnLoses(s: System, turn: Turn, i: nat) {
    turn.Go? && turn.tid == i && i < |s.threads| && Loses(s.threads[i], turn.replies)
  }

  ghost predicate LosesAt(schedule: seq<Turn>, p: nat, i: nat)
    requires p < |schedule|
  {
    TurnLoses(ExecAll(schedule[..p]), schedule[p], i)
  }

  ghost predicate GivesUp(schedule: seq<Turn>, i: nat) {
    exists p | 0 <= p < |schedule| :: LosesAt(schedule, p, i)
  }

  lemma StepsIntoLoss(t: Thread, nonce: Option<uint64>, r: Replies)
    requires Inv(t)
    ensures Lost(Step(t, nonce, r).thread) <==> Lost(t) || Loses(t, r)
  {
    if t.status == Running && t.tx.Some? {
      StepLosesExactly(t, nonce, r);
    }
  }

  lemma TurnLosesExactly(s: System, turn: Turn, i: nat)
    requires ThreadsInv(s)
    ensures LostIn(Exec(s, turn), i) <==> LostIn(s, i) || TurnLoses(s, turn, i)
  {
    if turn.Go? && turn.tid == i && i < |s.threads| {
      StepsIntoLoss(s.threads[i], s.nonce, turn.replies);
    }
  }

  lemma GivesUpEarlier(schedule: seq<Turn>, i: nat)
    requires schedule != []
    ensures GivesUp(schedule, i) <==>
            GivesUp(schedule[..|schedule| - 1], i) || LosesAt(schedule, |schedule| - 1, i)
  {
    var init := schedule[..|schedule| - 1];
    forall p | 0 <= p < |init|
      ensures LosesAt(init, p, i) <==> LosesAt(schedule, p, i)
    {
      assert init[..p] == schedule[..p];
    }
  }

  lemma {:induction false} LostExactly(schedule: seq<Turn>, i: nat)
    ensures LostIn(ExecAll(schedule), i) <==> GivesUp(schedule, i)
  {
    if schedule != [] {
      var init := schedule[..|schedule| - 1];
      LostExactly(init, i);
      ReachableInv(init);
      GivesUpEarlier(schedule, i);
      TurnLosesExactly(ExecAll(init), schedule[|schedule| - 1], i);
    }
  }

  // The nonce of a call that stopped without an acceptance is accepted in no further run.
  lemma GapIsPermanent(schedule: seq<Turn>, more: seq<Turn>, i: nat)
    requires i < |ExecAll(schedule).threads| && |ExecAll(schedule + more).signed| <= TWO_64
    requires var t := ExecAll(schedule).threads[i];
             t.status != Running && t.tx.Some? && Acceptances(t.trace) == 0
    ensures !Accepted(ExecAll(schedule + more), ExecAll(schedule).threads[i].tx.value.content.nonce)
  {
    StoppedForGood(schedule, more, i);
    ReachableInv(schedule + more);
    HolderDecides(ExecAll(schedule + more), i, ExecAll(schedule).threads[i].tx.value.content.nonce);
  }

  // ---------------------------------------------------------------- recovery

  lemma QuietTurn(schedule: seq<Turn>, s: System, tid: nat, r: Replies, t: Thread)
    requires ExecAll(schedule) == s && tid < |s.threads|
    requires Step(s.threads[tid], s.nonce, r) == Move(t, s.nonce, None, None)
    ensures ExecAll(schedule + [Go(tid, r)]) == s.(threads := s.threads[tid := t])
  {
    assert (schedule + [Go(tid, r)])[..|schedule|] == schedule;
  }

  // The states a schedule leads to when only call i moves on and signs nothing.
  ghost predicate OnlyMoved(s: System, u: System, i: nat)
    requires i < |s.threads|
  {
    u == s.(threads := u.threads) && |u.threads| == |s.threads| && u.threads == s.threads[i := u.threads[i]]
    && u.threads[i].tx == s.threads[i].tx
  }

  lemma OnlyMovedTwice(s: System, u: System, v: System, i: nat)
    requires i < |s.threads| && OnlyMoved(s, u, i) && OnlyMoved(u, v, i)
    ensures OnlyMoved(s, v, i)
  {
    assert s.threads[i := u.threads[i]][i := v.threads[i]] == s.threads[i := v.threads[i]];
  }

  lemma DriveOn(schedule: seq<Turn>, i: nat) returns (go: Turn)
    requires i < |ExecAll(schedule).threads|
    requires var t := ExecAll(schedule).threads[i];
             t.status == Running && t.tx.Some? && Position(t.stage) < 4
    ensures OnlyMoved(ExecAll(schedule), ExecAll(schedule + [go]), i)
    ensures var t, u := ExecAll(schedule).threads[i], ExecAll(schedule + [go]).threads[i];
            u.status == Running && Position(u.stage) == Position(t.stage) + 1
  {
    var s := ExecAll(schedule);
    var u := GenerousStep(s.threads[i], s.nonce);
    go := Go(i, Generous(Roomy(s.threads[i].candidate)));
    QuietTurn(schedule, s, i, go.replies, u);
  }

  // Only call i moved, and it got through if it holds a transaction.
  ghost predicate Through(s: System, u: System, i: nat)
    requires i < |s.threads|
  {
    OnlyMoved(s, u, i) && (u.threads[i].tx.Some? ==> Acceptances(u.threads[i].trace) == 1)
  }

  lemma ThroughAlready(schedule: seq<Turn>, i: nat)
    requires i < |ExecAll(schedule).threads|
    requires var t := ExecAll(schedule).threads[i]; t.tx.Some? ==> Position(t.stage) == 4
    ensures Through(ExecAll(schedule), ExecAll(schedule + []), i)
  {
    assert schedule + [] == schedule;
    ReachableInv(schedule);
    ReservationsAreConserved(ExecAll(schedule).threads[i]);
  }

  // A running holder is taken to an acceptance in at most four turns.
  lemma {:induction false} DriveToAcceptance(schedule: seq<Turn>, i: nat) returns (more: seq<Turn>)
    requires i < |ExecAll(schedule).threads|
    requires var t := ExecAll(schedule).threads[i]; t.status == Running && t.tx.Some?
    ensures |more| == 4 - Position(ExecAll(schedule).threads[i].stage)
    ensures Through(ExecAll(schedule), ExecAll(schedule + more), i)
    decreases 4 - Position(ExecAll(schedule).threads[i].stage)
  {
    if Position(ExecAll(schedule).threads[i].stage) == 4 {
      more := [];
      ThroughAlready(schedule, i);
    } else {
      var go := DriveOn(schedule, i);
      var rest := DriveToAcceptance(schedule + [go], i);
      more := [go] + rest;
      assert schedule + more == schedule + [go] + rest;
      OnlyMovedTwice(ExecAll(schedule), ExecAll(schedule + [go]), ExecAll(schedule + [go] + rest), i);
    }
  }

  ghost predicate AcceptedLater(schedule: seq<Turn>, more: seq<Turn>, n: uint64) {
    var s := ExecAll(schedule + more);
    |s.signed| <= TWO_64 && Accepted(s, n)
  }

  // The nonce that a call holds can never be accepted any more exactly if at some turn the call gave
  // up, because it could not choose a slot or get the fee.
  lemma NonceIsLostExactly(schedule: seq<Turn>, i: nat)
    requires i < |ExecAll(schedule).threads| && |ExecAll(schedule).signed| <= TWO_64
    requires ExecAll(schedule).threads[i].tx.Some?
    ensures
      var n := ExecAll(schedule).threads[i].tx.value.content.nonce;
      GivesUp(schedule, i) <==> forall more :: !AcceptedLater(schedule, more, n)
  {
    var t := ExecAll(schedule).threads[i];
    var n := t.tx.value.content.nonce;
    LostExactly(schedule, i);
    ReachableInv(schedule);
    if Lost(t) {
      StoppedHolderLostExactly(t);
      forall more
        ensures !AcceptedLater(schedule, more, n)
      {
        if |ExecAll(schedule + more).signed| <= TWO_64 {
          GapIsPermanent(schedule, more, i);
        }
      }
    } else {
      var more := HolderRecovers(schedule, i);
      ReachableInv(schedule + more);
      HolderDecides(ExecAll(schedule + more), i, n);
      assert AcceptedLater(schedule, more, n);
    }
  }

  // Unless a call gave up, it is at most four turns from an acceptance, if it needs one.
  lemma HolderRecovers(schedule: seq<Turn>, i: nat) returns (more: seq<Turn>)
    requires i < |ExecAll(schedule).threads| && !LostIn(ExecAll(schedule), i)
    ensures |more| <= 4
    ensures Through(ExecAll(schedule), ExecAll(schedule + more), i)
  {
    var t := ExecAll(schedule).threads[i];
    if t.tx.Some? && t.status == Running {
      more := DriveToAcceptance(schedule, i);
    } else {
      more := [];
      ReachableInv(schedule);
      ThroughAlready(schedule, i);
    }
  }

  // ---------------------------------------------------------------- closing all gaps

  ghost predicate GotThrough(threads: seq<Thread>, n: nat)
    requires n <= |threads|
  {
    forall i | 0 <= i < n && threads[i].tx.Some? :: Acceptances(threads[i].trace) == 1
  }

  // The same calls hold the same transactions.
  ghost predicate SameHolders(s: System, u: System) {
    && u.signed == s.signed && |u.threads| == |s.threads|
    && forall i | 0 <= i < |s.threads| :: u.threads[i].tx == s.threads[i].tx
  }

  // The first n calls got through, and the others have not moved.
  ghost predicate Driven(s: System, u: System, n: nat)
    requires n <= |s.threads|
  {
    SameHolders(s, u) && GotThrough(u.threads, n) && u.threads[n..] == s.threads[n..]
  }

  lemma DrivenOn(s: System, u: System, v: System, n: nat)
    requires n < |s.threads| && Driven(s, u, n) && Through(u, v, n)
    ensures Driven(s, v, n + 1)
  {
    assert v.threads[n + 1..] == u.threads[n..][1..] == s.threads[n..][1..] == s.threads[n + 1..];
  }

  lemma {:induction false} DriveAll(schedule: seq<Turn>, n: nat) returns (more: seq<Turn>)
    requires n <= |ExecAll(schedule).threads|
    requires forall i: nat :: !LostIn(ExecAll(schedule), i)
    ensures Driven(ExecAll(schedule), ExecAll(schedule + more), n)
  {
    if n == 0 {
      more := [];
      assert schedule + more == schedule;
    } else {
      var first := DriveAll(schedule, n - 1);
      more := DriveOne(schedule, first, n - 1);
    }
  }

  lemma DriveOne(schedule: seq<Turn>, first: seq<Turn>, n: nat) returns (more: seq<Turn>)
    requires n < |ExecAll(schedule).threads| && !LostIn(ExecAll(schedule), n)
    requires Driven(ExecAll(schedule), ExecAll(schedule + first), n)
    ensures Driven(ExecAll(schedule), ExecAll(schedule + more), n + 1)
  {
    var s, u := ExecAll(schedule), ExecAll(schedule + first);
    assert u.threads[n] == u.threads[n..][0] == s.threads[n..][0] == s.threads[n];
    var rest := HolderRecovers(schedule + first, n);
    more := first + rest;
    assert schedule + more == schedule + first + rest;
    DrivenOn(s, u, ExecAll(schedule + more), n);
  }

  // Every nonce signed so far is accepted in the end.
  ghost predicate ClosesGaps(schedule: seq<Turn>, more: seq<Turn>) {
    var signed := ExecAll(schedule).signed;
    forall k | 0 <= k < |signed| :: AcceptedLater(schedule, more, signed[k].1.content.nonce)
  }

  // Some continuation gets all nonces accepted exactly if no call has given up.
  lemma GapsCloseExactly(schedule: seq<Turn>)
    requires |ExecAll(schedule).signed| <= TWO_64
    ensures (exists more :: ClosesGaps(schedule, more)) <==> forall i: nat :: !GivesUp(schedule, i)
  {
    var s := ExecAll(schedule);
    ReachableInv(schedule);
    if i: nat :| GivesUp(schedule, i) {
      LostExactly(schedule, i);
      NonceIsLostExactly(schedule, i);
      var k: nat :| Owns(s.signed, k, i);
      forall more
        ensures !ClosesGaps(schedule, more)
      {
        assert !AcceptedLater(schedule, more, s.signed[k].1.content.nonce);
      }
    } else {
      var more := AllRecover(schedule);
    }
  }

  lemma AllRecover(schedule: seq<Turn>) returns (more: seq<Turn>)
    requires |ExecAll(schedule).signed| <= TWO_64
    requires forall i: nat :: !GivesUp(schedule, i)
    ensures ClosesGaps(schedule, more)
  {
    var s := ExecAll(schedule);
    forall i: nat
      ensures !LostIn(s, i)
    {
      LostExactly(schedule, i);
    }
    more := DriveAll(schedule, |s.threads|);
    var u := ExecAll(schedule + more);
    ReachableInv(schedule);
    ReachableInv(schedule + more);
    forall k | 0 <= k < |s.signed|
      ensures AcceptedLater(schedule, more, s.signed[k].1.content.nonce)
    {
      HolderDecides(u, s.signed[k].0, s.signed[k].1.content.nonce);
    }
  }

  // ---------------------------------------------------------------- a gap

  lemma SigningTurn(schedule: seq<Turn>, s: System, tid: nat, r: Replies, m: Move)
    requires ExecAll(schedule) == s && tid < |s.threads| && m.signed.Some?
    requires Step(s.threads[tid], s.nonce, r) == m
    ensures ExecAll(schedule + [Go(tid, r)]) ==
            System(m.nonce, s.fetched + (if m.fetched.Some? then [m.fetched.value] else []),
                   s.signed + [(tid, m.signed.value)], s.threads[tid := m.thread])
  {
    assert (schedule + [Go(tid, r)])[..|schedule|] == schedule;
  }

  // A call that starts in this state crafts and signs.
  lemma SigningTurns(schedule: seq<Turn>, s: System, tid: nat, c: TxCandidate) returns (more: seq<Turn>, t: Thread)
    requires ExecAll(schedule) == s && tid < |s.threads| && s.threads[tid] == Start(c)
    requires !Uncraftable(c)
    ensures Prepared(t, c) && t.tx.value.content.nonce == if s.nonce.None? then 7 else Inc64(s.nonce.value)
    ensures ExecAll(schedule + more) ==
            System(Some(t.tx.value.content.nonce), s.fetched + (if s.nonce.None? then [7] else []),
                   s.signed + [(tid, t.tx.value)], s.threads[tid := t])
  {
    var r := Generous(Roomy(c));
    var t1, t2 := GenerousPreparation(c, Roomy(c), s.nonce);
    var u := s.(threads := s.threads[tid := t1]);
    QuietTurn(schedule, s, tid, r, t1);
    SigningTurn(schedule + [Go(tid, r)], u, tid, r, Step(t1, s.nonce, r));
    more, t := [Go(tid, r)] + [Go(tid, r)], t2;
    assert schedule + more == schedule + [Go(tid, r)] + [Go(tid, r)];
    assert s.threads[tid := t1][tid := t2] == s.threads[tid := t2];
  }

  lemma TwoSpawned(c: TxCandidate)
    ensures ExecAll([Spawn(c), Spawn(c)]) == FRESH.(threads := [Start(c), Start(c)])
  {
    var one, two := [Spawn(c)], [Spawn(c), Spawn(c)];
    assert one[..0] == [] && two[..1] == one;
    assert ExecAll(one) == Exec(FRESH, Spawn(c));
    assert ExecAll(two) == Exec(ExecAll(one), Spawn(c));
  }

  ghost function NoSlots(c: TxCandidate): Replies {
    Generous(Roomy(c)).(slots := Err("unavailable"))
  }

  lemma NoSlotLoses(t: Thread, nonce: Option<uint64>)
    requires t.status == Running && t.stage.Choosing? && t.tx.Some?
    ensures Step(t, nonce, NoSlots(t.candidate)) == Move(t.(status := Failed), nonce, None, None)
    ensures Lost(t.(status := Failed))
  {
  }

  // The first of two calls signs and then finds no slot.
  lemma FirstCallFails(c: TxCandidate) returns (schedule: seq<Turn>, t: Thread)
    requires !Uncraftable(c)
    ensures Lost(t) && t.tx.value.content.nonce == 7
    ensures ExecAll(schedule) == System(Some(7), [7], [(0, t.tx.value)], [t, Start(c)])
  {
    var start := [Spawn(c), Spawn(c)];
    TwoSpawned(c);
    var more, a := SigningTurns(start, FRESH.(threads := [Start(c), Start(c)]), 0, c);
    NoSlotLoses(a, Some(7));
    t := a.(status := Failed);
    QuietTurn(start + more, ExecAll(start + more), 0, NoSlots(c), t);
    schedule := start + more + [Go(0, NoSlots(c))];
  }

  // The second has its own accepted, one ahead of one that is missing for good.
  lemma FailedCallLeavesGap(c: TxCandidate) returns (schedule: seq<Turn>)
    requires !Uncraftable(c)
    ensures var s := ExecAll(schedule);
            && |s.threads| == |s.signed| == 2 && Lost(s.threads[0])
            && s.signed[1].1.content.nonce == s.signed[0].1.content.nonce + 1
            && Accepted(s, s.signed[1].1.content.nonce)
            && forall more :: !AcceptedLater(schedule, more, s.signed[0].1.content.nonce)
  {
    var stopped, t := FirstCallFails(c);
    var signing, b := SigningTurns(stopped, ExecAll(stopped), 1, c);
    var both := stopped + signing;
    assert ExecAll(both).threads[1] == b;
    var driving := DriveToAcceptance(both, 1);
    schedule := both + driving;
    var s := ExecAll(schedule);
    assert s.threads[0] == ExecAll(both).threads[0] == t;
    ReachableInv(schedule);
    HolderDecides(s, 1, 8);
    LostExactly(schedule, 0);
    NonceIsLostExactly(schedule, 0);
  }
}
