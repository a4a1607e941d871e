// Any number of concurrent Send calls that share one nonce. The scheduler picks a thread
// and the answers its next step reads; the critical section of signing is one step.
module Interleaving {
  import opened Words
  import opened Preimages
  import opened Environment
  import opened Signing
  import opened SendMachine
  import opened SendSafety

  datatype Turn = Spawn(candidate: TxCandidate) | Go(tid: nat, replies: Replies)

  // The shared counter, every nonce fetched from the backend, every signature with the
  // thread it was made for, and the threads.
  datatype System = System(
    nonce: Option<uint64>, fetched: seq<uint64>, signed: seq<(nat, Tx)>, threads: seq<Thread>)

  const FRESH: System := System(None, [], [], [])

  function Exec(s: System, turn: Turn): System {
    match turn
    case Spawn(c) => s.(threads := s.threads + [Start(c)])
    case Go(tid, r) =>
      if tid >= |s.threads| then s
      else
        var m := Step(s.threads[tid], s.nonce, r);
        System(m.nonce,
               if m.fetched.Some? then s.fetched + [m.fetched.value] else s.fetched,
               if m.signed.Some? then s.signed + [(tid, m.signed.value)] else s.signed,
               s.threads[tid := m.thread])
  }

  function ExecAll(schedule: seq<Turn>): System {
    if schedule == [] then FRESH
    else Exec(ExecAll(schedule[..|schedule| - 1]), schedule[|schedule| - 1])
  }

  // ---------------------------------------------------------------- invariants

  ghost predicate ThreadsInv(s: System) {
    forall i | 0 <= i < |s.threads| :: Inv(s.threads[i])
  }

  // Counting from the first fetched nonce.
  ghost function Nth(first: uint64, k: nat): uint64 {
    (first + k) % TWO_64
  }

  // Nothing is signed before the counter is set; it is set once; afterwards it is one
  // behind the nonce that the next signing is due to use.
  ghost predicate Counter(nonce: Option<uint64>, fetched: seq<uint64>, signed: seq<(nat, Tx)>) {
    if nonce.None? then fetched == [] && signed == []
    else
      && |fetched| == 1
      && Inc64(nonce.value) == Nth(fetched[0], |signed|)
      && Consecutive(fetched[0], signed)
  }

  ghost predicate Consecutive(first: uint64, signed: seq<(nat, Tx)>) {
    forall k | 0 <= k < |signed| :: signed[k].1.content.nonce == Nth(first, k)
  }

  ghost predicate CounterInv(s: System) {
    Counter(s.nonce, s.fetched, s.signed)
  }

  ghost predicate Owns(signed: seq<(nat, Tx)>, k: nat, i: nat) {
    k < |signed| && signed[k].0 == i
  }

  // A thread holds a transaction exactly when it made a signature, and it made only one.
  ghost predicate Owners(signed: seq<(nat, Tx)>, threads: seq<Thread>) {
    && (forall k | 0 <= k < |signed| :: signed[k].0 < |threads| && threads[signed[k].0].tx == Some(signed[k].1))
    && (forall j, k | 0 <= j < k < |signed| :: signed[j].0 != signed[k].0)
    && (forall i | 0 <= i < |threads| && threads[i].tx.Some? :: exists k :: Owns(signed, k, i))
  }

  ghost predicate OwnerInv(s: System) {
    Owners(s.signed, s.threads)
  }

  lemma NthStep(first: uint64, k: nat)
    ensures Inc64(Nth(first, k)) == Nth(first, k + 1)
  {
  }

  lemma NthStart(first: uint64)
    ensures Nth(first, 0) == first
  {
  }

  lemma SuccessKeepsCounter(
    fetched: seq<uint64>, signed: seq<(nat, Tx)>, tid: nat, tx: Tx, n: uint64)
    requires |fetched| == 1 && Consecutive(fetched[0], signed)
    requires n == Nth(fetched[0], |signed|) && tx.content.nonce == n
    ensures Counter(Some(n), fetched, signed + [(tid, tx)])
  {
    NthStep(fetched[0], |signed|);
  }

  // The critical section keeps the counter, even where a failed signing wraps it below 0.
  lemma SignKeepsCounter(
    nonce: Option<uint64>, fetched: seq<uint64>, signed: seq<(nat, Tx)>, tid: nat, m: TxData, r: Replies)
    requires Counter(nonce, fetched, signed) && !m.OtherTx?
    ensures
      var sig := Sign(nonce, m, r);
      Counter(sig.nonce,
              if sig.fetched.Some? then fetched + [sig.fetched.value] else fetched,
              if sig.tx.Ok? then signed + [(tid, sig.tx.value)] else signed)
  {
    SignConsumesExactlyOnSuccess(nonce, m, r);
    var sig := Sign(nonce, m, r);
    if Due(nonce, r).Some? {
      var fetched' := if sig.fetched.Some? then fetched + [sig.fetched.value] else fetched;
      NthStart(fetched'[0]);
      if sig.tx.Ok? {
        SuccessKeepsCounter(fetched', signed, tid, sig.tx.value, Due(nonce, r).value);
      }
    }
  }

  lemma StepKeepsCounter(s: System, turn: Turn)
    requires ThreadsInv(s) && CounterInv(s)
    ensures CounterInv(Exec(s, turn))
  {
    if turn.Go? && turn.tid < |s.threads| {
      var t := s.threads[turn.tid];
      assert Inv(t);
      if t.status == Running && t.stage.AwaitingSignature? {
        SignKeepsCounter(s.nonce, s.fetched, s.signed, turn.tid, t.stage.message, turn.replies);
      }
    }
  }

  lemma OwnersKept(signed: seq<(nat, Tx)>, threads: seq<Thread>, tid: nat, t: Thread)
    requires Owners(signed, threads) && tid < |threads| && t.tx == threads[tid].tx
    ensures Owners(signed, threads[tid := t])
  {
    var threads' := threads[tid := t];
    forall i | 0 <= i < |threads| && threads'[i].tx.Some?
      ensures exists k :: Owns(signed, k, i)
    {
      assert threads[i].tx.Some?;
    }
  }

  lemma OwnersExtended(signed: seq<(nat, Tx)>, threads: seq<Thread>, tid: nat, t: Thread)
    requires Owners(signed, threads) && tid < |threads| && threads[tid].tx.None? && t.tx.Some?
    ensures Owners(signed + [(tid, t.tx.value)], threads[tid := t])
  {
    var signed', threads' := signed + [(tid, t.tx.value)], threads[tid := t];
    forall i | 0 <= i < |threads| && threads'[i].tx.Some?
      ensures exists k :: Owns(signed', k, i)
    {
      if i == tid {
        assert Owns(signed', |signed|, i);
      } else {
        assert threads[i].tx.Some?;
        var k :| Owns(signed, k, i);
        assert Owns(signed', k, i);
      }
    }
  }

  lemma OwnersSpawn(signed: seq<(nat, Tx)>, threads: seq<Thread>, t: Thread)
    requires Owners(signed, threads) && t.tx.None?
    ensures Owners(signed, threads + [t])
  {
    var threads' := threads + [t];
    forall i | 0 <= i < |threads'| && threads'[i].tx.Some?
      ensures exists k :: Owns(signed, k, i)
    {
      assert threads[i].tx.Some?;
    }
  }

  lemma StepKeepsOwners(s: System, turn: Turn)
    requires ThreadsInv(s) && OwnerInv(s)
    ensures OwnerInv(Exec(s, turn))
  {
    match turn
    case Spawn(c) => OwnersSpawn(s.signed, s.threads, Start(c));
    case Go(tid, r) =>
      if tid < |s.threads| {
        var m := Step(s.threads[tid], s.nonce, r);
        StepKeepsTx(s.threads[tid], s.nonce, r);
        if m.signed.Some? {
          OwnersExtended(s.signed, s.threads, tid, m.thread);
        } else {
          OwnersKept(s.signed, s.threads, tid, m.thread);
        }
      }
  }

  // A step signs only for a thread without a transaction, and keeps the one it has.
  lemma StepKeepsTx(t: Thread, nonce: Option<uint64>, r: Replies)
    requires Inv(t)
    ensures
      var m := Step(t, nonce, r);
      && (m.signed.Some? ==> t.tx.None? && m.thread.tx == m.signed)
      && (m.signed.None? ==> m.thread.tx == t.tx)
  {
  }

  lemma {:induction false} ReachableInv(schedule: seq<Turn>)
    ensures var s := ExecAll(schedule); ThreadsInv(s) && CounterInv(s) && OwnerInv(s)
  {
    if schedule != [] {
      var init, turn := schedule[..|schedule| - 1], schedule[|schedule| - 1];
      ReachableInv(init);
      var s := ExecAll(init);
      StepKeepsCounter(s, turn);
      StepKeepsOwners(s, turn);
      if turn.Go? && turn.tid < |s.threads| {
        StepKeepsInv(s.threads[turn.tid], s.nonce, turn.replies);
      }
    }
  }

  // ---------------------------------------------------------------- main results

  // In every interleaving the k-th signed transaction carries the first fetched nonce plus
  // k, modulo 2^64, and the backend's nonce is used at most once.
  lemma NoncesAreConsecutive(schedule: seq<Turn>)
    ensures var s := ExecAll(schedule);
            && |s.fetched| <= 1
            && (s.signed != [] ==> |s.fetched| == 1)
            && forall k | 0 <= k < |s.signed| :: s.signed[k].1.content.nonce == (s.fetched[0] + k) % TWO_64
  {
    ReachableInv(schedule);
  }

  lemma SharedNonce(s: System, j: nat, k: nat)
    requires CounterInv(s) && j < k < |s.signed|
    ensures s.signed[j].1.content.nonce == s.signed[k].1.content.nonce <==> (k - j) % TWO_64 == 0
  {
    EqualModulo(s.fetched[0] + j, k - j);
  }

  // Two signatures share a nonce exactly when they are a multiple of 2^64 signatures apart.
  lemma NoncesRepeatExactlyAfterWrap(schedule: seq<Turn>, j: nat, k: nat)
    requires j < k < |ExecAll(schedule).signed|
    ensures var s := ExecAll(schedule);
            s.signed[j].1.content.nonce == s.signed[k].1.content.nonce <==> (k - j) % TWO_64 == 0
  {
    ReachableInv(schedule);
    SharedNonce(ExecAll(schedule), j, k);
  }

  lemma EqualModulo(a: nat, d: nat)
    ensures (a + d) % TWO_64 == a % TWO_64 <==> d % TWO_64 == 0
  {
    var q, q', q'' := a / TWO_64, d / TWO_64, (a + d) / TWO_64;
    assert a == q * TWO_64 + a % TWO_64;
    assert d == q' * TWO_64 + d % TWO_64;
    assert a + d == q'' * TWO_64 + (a + d) % TWO_64;
  }

  lemma HoldersDiffer(s: System, i: nat, j: nat)
    requires CounterInv(s) && OwnerInv(s) && |s.signed| <= TWO_64
    requires i < j < |s.threads| && s.threads[i].tx.Some? && s.threads[j].tx.Some?
    ensures s.threads[i].tx.value.content.nonce != s.threads[j].tx.value.content.nonce
  {
    var a: nat :| Owns(s.signed, a, i);
    var b: nat :| Owns(s.signed, b, j);
    if a < b {
      SharedNonce(s, a, b);
    } else {
      SharedNonce(s, b, a);
    }
  }

  // Two calls never hold transactions with the same nonce, as long as no more than 2^64
  // transactions were signed.
  lemma CallsHoldDistinctNonces(schedule: seq<Turn>, i: nat, j: nat)
    requires i < j < |ExecAll(schedule).threads| && |ExecAll(schedule).signed| <= TWO_64
    requires ExecAll(schedule).threads[i].tx.Some? && ExecAll(schedule).threads[j].tx.Some?
    ensures ExecAll(schedule).threads[i].tx.value.content.nonce != ExecAll(schedule).threads[j].tx.value.content.nonce
  {
    ReachableInv(schedule);
    HoldersDiffer(ExecAll(schedule), i, j);
  }

  ghost function Holders(threads: seq<Thread>): nat {
    if threads == [] then 0
    else Holders(threads[..|threads| - 1]) + if threads[|threads| - 1].tx.Some? then 1 else 0
  }

  lemma {:induction false} HoldersUpdate(threads: seq<Thread>, i: nat, t: Thread)
    requires i < |threads|
    ensures Holders(threads[i := t]) ==
            Holders(threads) - (if threads[i].tx.Some? then 1 else 0) + (if t.tx.Some? then 1 else 0)
  {
    var n := |threads|;
    if i == n - 1 {
      assert threads[i := t][..n - 1] == threads[..n - 1];
    } else {
      HoldersUpdate(threads[..n - 1], i, t);
      assert threads[i := t][..n - 1] == threads[..n - 1][i := t];
    }
  }

  lemma StepCountsHolders(s: System, turn: Turn)
    requires ThreadsInv(s) && |s.signed| == Holders(s.threads)
    ensures |Exec(s, turn).signed| == Holders(Exec(s, turn).threads)
  {
    match turn
    case Spawn(c) =>
      assert (s.threads + [Start(c)])[..|s.threads|] == s.threads;
    case Go(tid, r) =>
      if tid < |s.threads| {
        StepKeepsTx(s.threads[tid], s.nonce, r);
        HoldersUpdate(s.threads, tid, Step(s.threads[tid], s.nonce, r).thread);
      }
  }

  lemma {:induction false} SignedAreHeld(schedule: seq<Turn>)
    ensures |ExecAll(schedule).signed| == Holders(ExecAll(schedule).threads)
  {
    if schedule != [] {
      var init := schedule[..|schedule| - 1];
      ReachableInv(init);
      SignedAreHeld(init);
      StepCountsHolders(ExecAll(init), schedule[|schedule| - 1]);
    }
  }

  // The next nonce in line, counting from the first one fetched, is the number of holders.
  ghost predicate NextCountsHolders(s: System) {
    if s.nonce.None? then Holders(s.threads) == 0
    else |s.fetched| == 1 && Upcoming(s.nonce) == Some((s.fetched[0] + Holders(s.threads)) % TWO_64)
  }

  lemma NextInLine(s: System)
    requires CounterInv(s) && |s.signed| == Holders(s.threads)
    ensures NextCountsHolders(s)
  {
  }

  // Nonces consumed are transactions held: one for each call that holds one, none for a
  // call whose preparation failed, crashed or is still going on, and still one for a call
  // that failed after preparation.
  lemma NoncesConsumedAreTransactionsHeld(schedule: seq<Turn>)
    ensures NextCountsHolders(ExecAll(schedule))
  {
    ReachableInv(schedule);
    SignedAreHeld(schedule);
    NextInLine(ExecAll(schedule));
  }

  // If the gateway never repeats an id, no id is submitted twice by any calls.
  lemma NoIdSubmittedTwiceByAnyCall(schedule: seq<Turn>, a: nat, i: nat, b: nat, j: nat, id: Uuid)
    requires FreshIds(ExecAll(schedule).threads)
    requires Submits(ExecAll(schedule).threads, a, i, id) && Submits(ExecAll(schedule).threads, b, j, id)
    ensures a == b && i == j
  {
    var threads := ExecAll(schedule).threads;
    ReachableInv(schedule);
    SubmissionsUseTheirReservation(threads[a], i);
    SubmissionsUseTheirReservation(threads[b], j);
    assert Reserves(threads, a, i - 1, id) && Reserves(threads, b, j - 1, id);
  }

  // Event i of call a is a reservation, or a submission, under this id.
  ghost predicate Reserves(threads: seq<Thread>, a: nat, i: nat, id: Uuid) {
    a < |threads| && i < |threads[a].trace| && threads[a].trace[i].Reserved? && threads[a].trace[i].id == id
  }

  ghost predicate Submits(threads: seq<Thread>, a: nat, i: nat, id: Uuid) {
    a < |threads| && i < |threads[a].trace| && SubmitsUnder(threads[a].trace[i], id)
  }

  ghost predicate FreshIds(threads: seq<Thread>) {
    forall a: nat, i: nat, b: nat, j: nat, id: Uuid ::
      Reserves(threads, a, i, id) && Reserves(threads, b, j, id) ==> a == b && i == j
  }

  // Skipping the decrement would break all of this: an unrecognised message leaves a gap.
  // No thread ever asks for one to be signed.
  lemma OnlyRecognisedMessagesAreSigned(schedule: seq<Turn>, i: nat)
    requires i < |ExecAll(schedule).threads|
    ensures var t := ExecAll(schedule).threads[i];
            t.stage.AwaitingSignature? ==> !t.stage.message.OtherTx?
  {
    ReachableInv(schedule);
    assert Inv(ExecAll(schedule).threads[i]);
  }

  lemma UnrecognisedMessageWouldSkipANonce(n: uint64, r: Replies, gas: uint64)
    ensures Sign(Some(n), OtherTx(0, gas), r).tx.Err?
    ensures Upcoming(Sign(Some(n), OtherTx(0, gas), r).nonce) == Some((n + 2) % TWO_64)
    ensures Upcoming(Sign(Some(n), OtherTx(0, gas), r).nonce) != Upcoming(Some(n))
  {
  }

  // ---------------------------------------------------------------- single calls in the crowd

  // Whatever the other threads do, a call that returns ends well.
  lemma ReturnedCallsEndWell(schedule: seq<Turn>, tid: nat) returns (i: nat)
    ensures
      var threads := ExecAll(schedule).threads;
      tid < |threads| && threads[tid].status.Returned? ==> EndsWell(threads[tid], i)
  {
    i := 0;
    ReachableInv(schedule);
    var threads := ExecAll(schedule).threads;
    if tid < |threads| && threads[tid].status.Returned? {
      i := ReturnedCallEndsWell(threads[tid]);
    }
  }

  ghost function Alone(c: TxCandidate, script: seq<Replies>): seq<Turn> {
    [Spawn(c)] + seq(|script|, i requires 0 <= i < |script| => Go(0, script[i]))
  }

  // A schedule with one thread is that thread's run.
  lemma {:induction false} LoneThreadIsRun(c: TxCandidate, script: seq<Replies>)
    ensures var s := ExecAll(Alone(c, script));
            |s.threads| == 1 && (s.threads[0], s.nonce) == Run(c, None, script)
  {
    var schedule := Alone(c, script);
    if script == [] {
      assert schedule == [Spawn(c)];
      assert ExecAll(schedule[..0]) == FRESH;
    } else {
      var init := script[..|script| - 1];
      LoneThreadIsRun(c, init);
      assert schedule[..|schedule| - 1] == Alone(c, init);
    }
  }
}
