// A log subscription: a producer that sends logs through a bounded channel and then signals
// on an error channel. At most one error is sent; afterwards the channel is closed, and a
// receive from a closed channel yields nil.
module Feeds {
  import opened Words

  // A log of the chain and the fields of an event type; nothing is known about either.
  type Log(==, !new)
  type Fields(==, !new)

  datatype ErrChan = Quiet | Raised(error: Error) | Closed

  // Logs still to be sent, logs in the channel, and the error channel.
  datatype Feed = Feed(pending: seq<Log>, buffer: seq<Log>, cap: nat, err: ErrChan)

  datatype Action =
    | Produce              // send one log, if the channel has room
    | Finish               // all logs are sent: signal nil
    | Break(error: Error)  // the subscription fails
    | Unsubscribe          // the consumer ends the subscription

  // An action that is not possible leaves the feed as it is.
  function Act(f: Feed, a: Action): Feed {
    if f.err != Quiet then f
    else
      match a
      case Produce =>
        if f.pending == [] || |f.buffer| >= f.cap then f
        else f.(pending := f.pending[1..], buffer := f.buffer + [f.pending[0]])
      case Finish => if f.pending == [] then f.(err := Closed) else f
      case Break(e) => f.(err := Raised(e))
      case Unsubscribe => f.(err := Closed)
  }

  // What a receive from a ready error channel yields; nil is None.
  function Verdict(err: ErrChan): Option<Error> {
    match err
    case Raised(e) => Some(e)
    case _ => None
  }

  // The conversion of a log into the event type; it may fail.
  datatype EventOf = Blank | Event(fields: Fields, raw: Log)

  // The events put out so far are the first of the logs taken in, each carrying its own
  // log and the fields unpacked from it.
  ghost predicate Unpacked(events: seq<EventOf>, logs: seq<Log>, unpack: Log -> Result<Fields>) {
    && |events| <= |logs|
    && forall i | 0 <= i < |events| ::
         events[i].Event? && events[i].raw == logs[i] && unpack(logs[i]) == Ok(events[i].fields)
  }

  lemma UnpackedAppend(events: seq<EventOf>, logs: seq<Log>, unpack: Log -> Result<Fields>, log: Log)
    requires Unpacked(events, logs, unpack)
    ensures Unpacked(events, logs + [log], unpack)
    ensures |events| == |logs| && unpack(log).Ok? ==>
              Unpacked(events + [Event(unpack(log).value, log)], logs + [log], unpack)
  {
  }

  lemma UnpackedPrefix(events: seq<EventOf>, logs: seq<Log>, all: seq<Log>, unpack: Log -> Result<Fields>)
    requires Unpacked(events, logs, unpack) && logs <= all
    ensures Unpacked(events, all, unpack)
  {
  }

  // Nothing is lost or reordered between producer and consumer.
  ghost predicate Conserved(all: seq<Log>, received: seq<Log>, f: Feed) {
    received + f.buffer + f.pending == all
  }

  lemma ActConserves(all: seq<Log>, received: seq<Log>, f: Feed, a: Action)
    requires Conserved(all, received, f)
    ensures Conserved(all, received, Act(f, a))
  {
    if f.err == Quiet && a == Produce && f.pending != [] && |f.buffer| < f.cap {
      var g := Act(f, a);
      assert f.pending == [f.pending[0]] + g.pending;
      assert received + g.buffer + g.pending == received + f.buffer + ([f.pending[0]] + g.pending);
    }
  }

  lemma TakeConserves(all: seq<Log>, received: seq<Log>, f: Feed)
    requires Conserved(all, received, f) && f.buffer != []
    ensures Conserved(all, received + [f.buffer[0]], f.(buffer := f.buffer[1..]))
  {
    assert f.buffer == [f.buffer[0]] + f.buffer[1..];
    assert received + [f.buffer[0]] + f.buffer[1..] == received + f.buffer;
  }
}
