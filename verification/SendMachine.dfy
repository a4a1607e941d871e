// One call of Send as a state machine. A step makes one remote call (or one group of calls
// that share no state) and reads its answer from a `Replies` record, so a sequence of
// records is one behaviour of the environment and every finite run is a fold over it.
module SendMachine {
  import opened Words
  import opened Fees
  import opened Uint256
  import opened Preimages
  import opened Environment
  import opened Slots
  import opened Signing

  const MAX_ATTEMPTS: nat := 30

  datatype Stage =
    | Crafting(attempt: nat)
    | AwaitingSignature(attempt: nat, message: TxData)
    | Choosing
    | Quoting(slot: uint64)
    | Reserving(slot: uint64, gasPrice: uint64, blobPrice: uint64)
    | Submitting(slot: uint64, id: Uuid)
    | Waiting(slot: uint64)
    | Fetching(slot: uint64)
    | Finished

  // A failed or crashed call keeps the stage it stopped in.
  datatype Status = Running | Returned(result: Result<Receipt>) | Failed | Crashed

  datatype Event =
    | Signed(tx: Tx)
    | Chosen(head: uint64, slots: seq<SlotInfo>, info: SlotInfo)
    | Quoted(slot: uint64, gasPrice: uint64, blobPrice: uint64)
    | Reserved(req: ReserveBlockSpaceRequest, id: Uuid)
    | NotReserved(req: ReserveBlockSpaceRequest)
    | Submitted(id: Uuid, tx: Tx)
    | NotSubmitted(id: Uuid, tx: Tx)
    | SawHead(head: uint64)
    | LookedUp(hash: Hash)

  datatype Thread = Thread(
    candidate: TxCandidate, stage: Stage, status: Status, tx: Option<Tx>, trace: seq<Event>)

  // A step of one thread: its new state, the shared nonce it leaves, and what it fetched
  // from the backend or signed.
  datatype Move = Move(thread: Thread, nonce: Option<uint64>, fetched: Option<uint64>, signed: Option<Tx>)

  function Start(c: TxCandidate): Thread {
    Thread(c, Crafting(0), Running, None, [])
  }

  function RequestFor(c: TxCandidate, tx: Tx, slot: uint64, gasPrice: uint64, blobPrice: uint64)
    : ReserveBlockSpaceRequest
  {
    var deposit := Limbs(Price(tx.content.gas, gasPrice, BlobCount(c), blobPrice) / 2);
    ReserveBlockSpaceRequest(BlobCount(c), deposit, tx.content.gas, slot, deposit)
  }

  // A failed attempt is followed by another one, up to the limit.
  function Retry(t: Thread, attempt: nat): Thread {
    if attempt + 1 < MAX_ATTEMPTS then t.(stage := Crafting(attempt + 1)) else t.(status := Failed)
  }

  function Record(t: Thread, e: Event, next: Stage): Thread {
    t.(stage := next, trace := t.trace + [e])
  }

  function CraftStep(t: Thread, attempt: nat, r: Replies): Thread {
    if r.cancelled then t.(status := Failed)
    else
      match Craft(t.candidate, r)
      case Success(m) => t.(stage := AwaitingSignature(attempt, m))
      case Panic => t.(status := Crashed)
      case Failure(_) => Retry(t, attempt)
  }

  function SignStep(t: Thread, attempt: nat, message: TxData, nonce: Option<uint64>, r: Replies): Move {
    var s := Sign(nonce, message, r);
    if s.tx.Ok? then
      Move(Record(t, Signed(s.tx.value), Choosing).(tx := Some(s.tx.value)), s.nonce, s.fetched, Some(s.tx.value))
    else
      Move(Retry(t, attempt), s.nonce, s.fetched, None)
  }

  // The steps after the transaction is signed.
  function PreconfStep(t: Thread, tx: Tx, r: Replies): Thread {
    match t.stage
    case Choosing =>
      var chosen := SlotFor(t.candidate, r.slots, r.head);
      if chosen.None? then t.(status := Failed)
      else Record(t, Chosen(r.head.value, r.slots.value, chosen.value), Quoting(chosen.value.slot))
    case Quoting(slot) =>
      if r.fee.Err? then t.(status := Failed)
      else Record(t, Quoted(slot, r.fee.value.0, r.fee.value.1), Reserving(slot, r.fee.value.0, r.fee.value.1))
    case Reserving(slot, gasPrice, blobPrice) =>
      var req := RequestFor(t.candidate, tx, slot, gasPrice, blobPrice);
      if r.reserve.Err? then Record(t, NotReserved(req), Choosing)
      else Record(t, Reserved(req, r.reserve.value), Submitting(slot, r.reserve.value))
    case Submitting(slot, id) =>
      if r.submit.Err? then Record(t, NotSubmitted(id, tx), Choosing)
      else Record(t, Submitted(id, tx), Waiting(slot))
    case Waiting(slot) =>
      if r.head.Err? then t.(status := Failed)
      else if r.head.value < Inc64(slot) then Record(t, SawHead(r.head.value), Waiting(slot))
      else Record(t, SawHead(r.head.value), Fetching(slot))
    case Fetching(_) =>
      Record(t, LookedUp(tx.hash), Finished).(status := Returned(r.receipt))
    case _ => t
  }

  function Step(t: Thread, nonce: Option<uint64>, r: Replies): Move {
    if t.status != Running then Move(t, nonce, None, None)
    else if t.stage.Crafting? then Move(CraftStep(t, t.stage.attempt, r), nonce, None, None)
    else if t.stage.AwaitingSignature? then SignStep(t, t.stage.attempt, t.stage.message, nonce, r)
    else if t.tx.None? then Move(t, nonce, None, None)
    else Move(PreconfStep(t, t.tx.value, r), nonce, None, None)
  }

  // The run of one thread that has the manager to itself.
  function RunFrom(t: Thread, nonce: Option<uint64>, script: seq<Replies>): (Thread, Option<uint64>) {
    if script == [] then (t, nonce)
    else
      var (t', nonce') := RunFrom(t, nonce, script[..|script| - 1]);
      var m := Step(t', nonce', script[|script| - 1]);
      (m.thread, m.nonce)
  }

  function Run(c: TxCandidate, nonce: Option<uint64>, script: seq<Replies>): (Thread, Option<uint64>) {
    RunFrom(Start(c), nonce, script)
  }

  lemma RunStep(t: Thread, nonce: Option<uint64>, script: seq<Replies>, r: Replies)
    ensures
      var (u, n) := RunFrom(t, nonce, script);
      RunFrom(t, nonce, script + [r]) == (Step(u, n, r).thread, Step(u, n, r).nonce)
  {
    assert (script + [r])[..|script|] == script;
  }

  // The states a run passes through, one more than there are answers.
  ghost predicate StepsAt(history: seq<(Thread, Option<uint64>)>, script: seq<Replies>, k: nat)
    requires k + 1 < |history| && k < |script|
  {
    var m := Step(history[k].0, history[k].1, script[k]);
    history[k + 1] == (m.thread, m.nonce)
  }

  ghost predicate IsHistory(history: seq<(Thread, Option<uint64>)>, script: seq<Replies>) {
    && |history| == |script| + 1
    && forall k {:trigger StepsAt(history, script, k)} | 0 <= k < |script| :: StepsAt(history, script, k)
  }

  lemma HistoryExtends(history: seq<(Thread, Option<uint64>)>, script: seq<Replies>, r: Replies)
    requires IsHistory(history, script)
    ensures
      var (t, nonce) := history[|script|];
      var m := Step(t, nonce, r);
      IsHistory(history + [(m.thread, m.nonce)], script + [r])
  {
    var (t, nonce) := history[|script|];
    var m := Step(t, nonce, r);
    var history', script' := history + [(m.thread, m.nonce)], script + [r];
    forall k | 0 <= k < |script'|
      ensures StepsAt(history', script', k)
    {
      if k < |script| {
        assert StepsAt(history, script, k);
        assert history'[k] == history[k] && history'[k + 1] == history[k + 1] && script'[k] == script[k];
      }
    }
  }

  lemma HistoryShortens(history: seq<(Thread, Option<uint64>)>, script: seq<Replies>)
    requires IsHistory(history, script) && script != []
    ensures IsHistory(history[..|script|], script[..|script| - 1])
  {
    var history', script' := history[..|script|], script[..|script| - 1];
    forall k | 0 <= k < |script'|
      ensures StepsAt(history', script', k)
    {
      assert StepsAt(history, script, k);
      assert history'[k] == history[k] && history'[k + 1] == history[k + 1] && script'[k] == script[k];
    }
  }

  lemma {:induction false} HistoryIsRun(history: seq<(Thread, Option<uint64>)>, script: seq<Replies>)
    requires IsHistory(history, script)
    ensures RunFrom(history[0].0, history[0].1, script) == history[|script|]
    decreases |script|
  {
    if script != [] {
      HistoryShortens(history, script);
      HistoryIsRun(history[..|script|], script[..|script| - 1]);
      assert StepsAt(history, script, |script| - 1);
    }
  }

  // ---------------------------------------------------------------- what a trace may look like

  // The slot chosen last.
  ghost function LastSlot(trace: seq<Event>): Option<uint64> {
    if trace == [] then None
    else if trace[|trace| - 1].Chosen? then Some(trace[|trace| - 1].info.slot)
    else LastSlot(trace[..|trace| - 1])
  }

  ghost predicate EndsRound(e: Event) {
    e.Signed? || e.NotReserved? || e.NotSubmitted?
  }

  // The head h has not passed, or has passed, the last chosen slot (slot+1 is a uint64).
  ghost predicate Before(trace: seq<Event>, h: uint64) {
    LastSlot(trace).Some? && h < Inc64(LastSlot(trace).value)
  }

  ghost predicate Past(trace: seq<Event>, h: uint64) {
    LastSlot(trace).Some? && h >= Inc64(LastSlot(trace).value)
  }

  ghost predicate IsChoice(c: TxCandidate, e: Event) {
    e.Chosen? &&
    exists i: nat ::
      IsFirstFit(e.slots, i, e.head, BlobCount(c), c.gasLimit) && e.slots[i] == e.info
  }

  // Whether event e may come right after the events in `past`.
  ghost predicate MayFollow(c: TxCandidate, tx: Tx, past: seq<Event>, e: Event) {
    if e.Signed? then past == [] && e.tx == tx
    else
      && past != []
      && var last := past[|past| - 1];
         match e
         case Chosen(_, _, _) => EndsRound(last) && IsChoice(c, e)
         case Quoted(slot, _, _) => last.Chosen? && slot == last.info.slot
         case Reserved(req, _) => last.Quoted? && req == RequestFor(c, tx, last.slot, last.gasPrice, last.blobPrice)
         case NotReserved(req) => last.Quoted? && req == RequestFor(c, tx, last.slot, last.gasPrice, last.blobPrice)
         case Submitted(id, x) => last.Reserved? && id == last.id && x == tx
         case NotSubmitted(id, x) => last.Reserved? && id == last.id && x == tx
         case SawHead(_) => last.Submitted? || (last.SawHead? && Before(past, last.head))
         case LookedUp(hash) => last.SawHead? && Past(past, last.head) && hash == tx.hash
  }

  ghost predicate Linked(c: TxCandidate, tx: Tx, trace: seq<Event>) {
    forall i {:trigger MayFollow(c, tx, trace[..i], trace[i])} | 0 <= i < |trace| ::
      MayFollow(c, tx, trace[..i], trace[i])
  }

  ghost predicate StageMatches(t: Thread)
    requires t.trace != []
  {
    var last := t.trace[|t.trace| - 1];
    match t.stage
    case Crafting(_) => false
    case AwaitingSignature(_, _) => false
    case Choosing => EndsRound(last)
    case Quoting(slot) => last.Chosen? && last.info.slot == slot
    case Reserving(slot, gasPrice, blobPrice) =>
      last == Quoted(slot, gasPrice, blobPrice) && LastSlot(t.trace) == Some(slot)
    case Submitting(slot, id) => last.Reserved? && last.id == id && LastSlot(t.trace) == Some(slot)
    case Waiting(slot) =>
      LastSlot(t.trace) == Some(slot) && (last.Submitted? || (last.SawHead? && Before(t.trace, last.head)))
    case Fetching(slot) => LastSlot(t.trace) == Some(slot) && last.SawHead? && Past(t.trace, last.head)
    case Finished => last.LookedUp?
  }

  // How many steps of a round come before this stage; 4 when the round is over.
  ghost function Position(stage: Stage): nat {
    match stage
    case Choosing => 0
    case Quoting(_) => 1
    case Reserving(_, _, _) => 2
    case Submitting(_, _) => 3
    case _ => 4
  }

  // Before the transaction exists.
  ghost predicate Preparing(t: Thread) {
    && t.tx.None? && t.trace == [] && !t.status.Returned?
    && match t.stage
       case Crafting(attempt) => attempt < MAX_ATTEMPTS
       case AwaitingSignature(attempt, m) => attempt < MAX_ATTEMPTS && Carries(t.candidate, m)
       case _ => false
  }

  // After it has been signed.
  ghost predicate Preconfirming(t: Thread) {
    && t.tx.Some? && t.trace != []
    && Carries(t.candidate, t.tx.value.content)
    && Linked(t.candidate, t.tx.value, t.trace)
    && StageMatches(t)
    && (t.status.Returned? <==> t.stage.Finished?)
    && (t.status == Failed ==> t.stage.Choosing? || t.stage.Quoting? || t.stage.Waiting?)
    && t.status != Crashed
  }

  ghost predicate Inv(t: Thread) {
    Preparing(t) || Preconfirming(t)
  }

  // ---------------------------------------------------------------- the invariant

  lemma LinkedAppend(c: TxCandidate, tx: Tx, trace: seq<Event>, e: Event)
    requires Linked(c, tx, trace) && MayFollow(c, tx, trace, e)
    ensures Linked(c, tx, trace + [e])
  {
    var s := trace + [e];
    forall i | 0 <= i < |s|
      ensures MayFollow(c, tx, s[..i], s[i])
    {
      if i < |trace| {
        assert s[..i] == trace[..i] && s[i] == trace[i];
        assert MayFollow(c, tx, trace[..i], trace[i]);
      } else {
        assert s[..i] == trace;
      }
    }
  }

  lemma LastSlotAppend(trace: seq<Event>, e: Event)
    ensures LastSlot(trace + [e]) == if e.Chosen? then Some(e.info.slot) else LastSlot(trace)
  {
    assert (trace + [e])[..|trace|] == trace;
  }

  lemma ChoiceIsFirstFit(c: TxCandidate, slots: Result<seq<SlotInfo>>, head: Result<uint64>)
    requires SlotFor(c, slots, head).Some?
    ensures IsChoice(c, Chosen(head.value, slots.value, SlotFor(c, slots, head).value))
  {
    var i := FirstFit(slots.value, head.value, BlobCount(c), c.gasLimit).value;
    assert IsFirstFit(slots.value, i, head.value, BlobCount(c), c.gasLimit);
  }

  lemma RecordKeepsInv(t: Thread, e: Event, next: Stage)
    requires Preconfirming(t) && t.status == Running
    requires MayFollow(t.candidate, t.tx.value, t.trace, e)
    requires !next.Finished? && StageMatches(Record(t, e, next))
    ensures Preconfirming(Record(t, e, next))
  {
    LinkedAppend(t.candidate, t.tx.value, t.trace, e);
  }

  lemma ChoosingKeepsInv(t: Thread, r: Replies)
    requires Preconfirming(t) && t.status == Running && t.stage.Choosing?
    ensures Preconfirming(PreconfStep(t, t.tx.value, r))
  {
    var chosen := SlotFor(t.candidate, r.slots, r.head);
    if chosen.Some? {
      ChoiceIsFirstFit(t.candidate, r.slots, r.head);
      RecordKeepsInv(t, Chosen(r.head.value, r.slots.value, chosen.value), Quoting(chosen.value.slot));
    }
  }

  lemma QuotingKeepsInv(t: Thread, r: Replies)
    requires Preconfirming(t) && t.status == Running && t.stage.Quoting?
    ensures Preconfirming(PreconfStep(t, t.tx.value, r))
  {
    if r.fee.Ok? {
      var e := Quoted(t.stage.slot, r.fee.value.0, r.fee.value.1);
      LastSlotAppend(t.trace, e);
      RecordKeepsInv(t, e, Reserving(t.stage.slot, r.fee.value.0, r.fee.value.1));
    }
  }

  lemma ReservingKeepsInv(t: Thread, r: Replies)
    requires Preconfirming(t) && t.status == Running && t.stage.Reserving?
    ensures Preconfirming(PreconfStep(t, t.tx.value, r))
  {
    var req := RequestFor(t.candidate, t.tx.value, t.stage.slot, t.stage.gasPrice, t.stage.blobPrice);
    if r.reserve.Ok? {
      LastSlotAppend(t.trace, Reserved(req, r.reserve.value));
      RecordKeepsInv(t, Reserved(req, r.reserve.value), Submitting(t.stage.slot, r.reserve.value));
    } else {
      RecordKeepsInv(t, NotReserved(req), Choosing);
    }
  }

  lemma SubmittingKeepsInv(t: Thread, r: Replies)
    requires Preconfirming(t) && t.status == Running && t.stage.Submitting?
    ensures Preconfirming(PreconfStep(t, t.tx.value, r))
  {
    if r.submit.Ok? {
      LastSlotAppend(t.trace, Submitted(t.stage.id, t.tx.value));
      RecordKeepsInv(t, Submitted(t.stage.id, t.tx.value), Waiting(t.stage.slot));
    } else {
      RecordKeepsInv(t, NotSubmitted(t.stage.id, t.tx.value), Choosing);
    }
  }

  lemma WaitingKeepsInv(t: Thread, r: Replies)
    requires Preconfirming(t) && t.status == Running && t.stage.Waiting?
    ensures Preconfirming(PreconfStep(t, t.tx.value, r))
  {
    if r.head.Ok? {
      var e := SawHead(r.head.value);
      LastSlotAppend(t.trace, e);
      RecordKeepsInv(t, e, if r.head.value < Inc64(t.stage.slot) then t.stage else Fetching(t.stage.slot));
    }
  }

  lemma FetchingKeepsInv(t: Thread, r: Replies)
    requires Preconfirming(t) && t.status == Running && t.stage.Fetching?
    ensures Preconfirming(PreconfStep(t, t.tx.value, r))
  {
    LinkedAppend(t.candidate, t.tx.value, t.trace, LookedUp(t.tx.value.hash));
  }

  lemma SigningKeepsInv(t: Thread, nonce: Option<uint64>, r: Replies)
    requires Preparing(t) && t.status == Running && t.stage.AwaitingSignature?
    ensures Inv(SignStep(t, t.stage.attempt, t.stage.message, nonce, r).thread)
  {
    var s := Sign(nonce, t.stage.message, r);
    if s.tx.Ok? {
      assert Linked(t.candidate, s.tx.value, t.trace);
      LinkedAppend(t.candidate, s.tx.value, t.trace, Signed(s.tx.value));
    }
  }

  // Every step keeps the invariant, whatever the shared nonce is when it runs; the other
  // threads can therefore be ignored.
  lemma StepKeepsInv(t: Thread, nonce: Option<uint64>, r: Replies)
    requires Inv(t)
    ensures Inv(Step(t, nonce, r).thread)
  {
    if t.status == Running {
      match t.stage
      case Crafting(_) =>
      case AwaitingSignature(_, _) => SigningKeepsInv(t, nonce, r);
      case Choosing => ChoosingKeepsInv(t, r);
      case Quoting(_) => QuotingKeepsInv(t, r);
      case Reserving(_, _, _) => ReservingKeepsInv(t, r);
      case Submitting(_, _) => SubmittingKeepsInv(t, r);
      case Waiting(_) => WaitingKeepsInv(t, r);
      case Fetching(_) => FetchingKeepsInv(t, r);
      case Finished =>
    }
  }

  lemma {:induction false} RunKeepsInv(t: Thread, nonce: Option<uint64>, script: seq<Replies>)
    requires Inv(t)
    ensures Inv(RunFrom(t, nonce, script).0)
  {
    if script != [] {
      RunKeepsInv(t, nonce, script[..|script| - 1]);
      var (t', nonce') := RunFrom(t, nonce, script[..|script| - 1]);
      StepKeepsInv(t', nonce', script[|script| - 1]);
    }
  }
}
