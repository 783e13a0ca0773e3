/** The rendezvous between an operation, which sends its log lines over an unbuffered channel and closes it, and the
    goroutine of the chat handler that receives them and forwards them to the chat. */
module LogPipe {
  import opened Sequences

  /** What the operation does next. */
  datatype Producer = Sending | Returned

  datatype Consumer<T> = Receiving | Forwarding(line: T) | Exited

  /** sent: how many of the operation's lines it has handed over; shown: lines delivered to the chat. */
  datatype Pipe<T> = Pipe(producer: Producer, sent: nat, closed: bool, consumer: Consumer<T>,
                          received: seq<T>, shown: seq<T>)

  function Start<T>(): Pipe<T> { Pipe(Sending, 0, false, Receiving, [], []) }

  /** Handover: a send and a receive happen together. Close: after its last line the operation runs its deferred close
      and returns. Forward: the chat call of the consumer returns. Exit: a receive on the closed channel ends its
      loop. */
  datatype Event = Handover | Close | Forward | Exit

  predicate Enabled<T>(lines: seq<T>, p: Pipe<T>, e: Event) {
    match e
    case Handover => p.producer == Sending && p.sent < |lines| && !p.closed && p.consumer.Receiving?
    case Close => p.producer == Sending && p.sent >= |lines|
    case Forward => p.consumer.Forwarding?
    case Exit => p.consumer.Receiving? && p.closed
  }

  /** forwards says which lines the handler sends on: all of them, or only the non-empty ones. */
  function Step<T>(lines: seq<T>, forwards: T -> bool, p: Pipe<T>, e: Event): Pipe<T>
    requires Enabled(lines, p, e)
  {
    match e
    case Handover => p.(sent := p.sent + 1, consumer := Forwarding(lines[p.sent]),
                        received := p.received + [lines[p.sent]])
    case Close => p.(closed := true, producer := Returned)
    case Forward => p.(consumer := Receiving,
                       shown := if forwards(p.consumer.line) then p.shown + [p.consumer.line] else p.shown)
    case Exit => p.(consumer := Exited)
  }

  predicate IsRun<T>(lines: seq<T>, forwards: T -> bool, p: Pipe<T>, events: seq<Event>)
    decreases |events|
  {
    || events == []
    || (Enabled(lines, p, events[0]) && IsRun(lines, forwards, Step(lines, forwards, p, events[0]), events[1..]))
  }

  function Exec<T>(lines: seq<T>, forwards: T -> bool, p: Pipe<T>, events: seq<Event>): Pipe<T>
    requires IsRun(lines, forwards, p, events)
    decreases |events|
  {
    if events == [] then p else Exec(lines, forwards, Step(lines, forwards, p, events[0]), events[1..])
  }

  /** The lines the handler forwards. */
  function Forwarded<T>(lines: seq<T>, forwards: T -> bool): seq<T> {
    if lines == [] then []
    else
      var k := |lines| - 1;
      Forwarded(lines[..k], forwards) + if forwards(lines[k]) then [lines[k]] else []
  }

  function Same<T>(x: T): T { x }

  /** Exactly the lines to be forwarded, each as often as it occurs and in the same order. */
  lemma {:induction false} ForwardedInOrder<T(!new)>(lines: seq<T>, forwards: T -> bool)
    ensures InOrder(Forwarded(lines, forwards), lines, forwards, Same)
  {
    hide InOrder;
    if lines == [] {
      InOrderEmpty(forwards, Same);
    } else {
      var front, last := lines[..|lines| - 1], lines[|lines| - 1];
      ForwardedInOrder(front, forwards);
      assert Forwarded(lines, forwards)
          == if forwards(last) then Forwarded(front, forwards) + [Same(last)] else Forwarded(front, forwards);
      InOrderSnoc(Forwarded(front, forwards), front, forwards, Same, last);
      assert front + [last] == lines;
    }
  }

  ghost predicate Inv<T(!new)>(lines: seq<T>, forwards: T -> bool, p: Pipe<T>) {
    && p.sent <= |lines| && p.received == lines[..p.sent]
    && (p.closed <==> p.producer == Returned) && (p.closed ==> p.sent == |lines|)
    && (p.consumer == Exited ==> p.closed)
    && (p.consumer.Forwarding? ==> p.sent > 0 && p.consumer.line == lines[p.sent - 1]
                                   && p.shown == Forwarded(lines[..p.sent - 1], forwards))
    && (!p.consumer.Forwarding? ==> p.shown == Forwarded(lines[..p.sent], forwards))
  }

  lemma StepKeepsInv<T(!new)>(lines: seq<T>, forwards: T -> bool, p: Pipe<T>, e: Event)
    requires Inv(lines, forwards, p) && Enabled(lines, p, e)
    ensures Inv(lines, forwards, Step(lines, forwards, p, e))
  {
    match e
    case Handover => assert lines[..p.sent + 1][..p.sent] == lines[..p.sent];
    case Forward => assert lines[..p.sent][..p.sent - 1] == lines[..p.sent - 1];
    case _ =>
  }

  /** Steps still possible. */
  function Left<T>(lines: seq<T>, p: Pipe<T>): nat {
    2 * (if p.sent <= |lines| then |lines| - p.sent else 0)
    + (if p.producer == Sending then 1 else 0)
    + (match p.consumer case Receiving => 1 case Forwarding(_) => 2 case Exited => 0)
  }

  lemma {:induction false} ExecInv<T(!new)>(lines: seq<T>, forwards: T -> bool, p: Pipe<T>, events: seq<Event>)
    requires Inv(lines, forwards, p) && IsRun(lines, forwards, p, events)
    ensures Inv(lines, forwards, Exec(lines, forwards, p, events))
    ensures |events| + Left(lines, Exec(lines, forwards, p, events)) <= Left(lines, p)
    decreases |events|
  {
    if events != [] {
      StepKeepsInv(lines, forwards, p, events[0]);
      ExecInv(lines, forwards, Step(lines, forwards, p, events[0]), events[1..]);
    }
  }

  /** In every run what has been received is a prefix of what the operation sends; the chat lags behind by at most the
      line being forwarded; the channel is closed only after the last line, and when the operation has returned
      everything has been received. */
  lemma ReceivedIsPrefix<T(!new)>(lines: seq<T>, forwards: T -> bool, events: seq<Event>)
    requires IsRun(lines, forwards, Start(), events)
    ensures var p := Exec(lines, forwards, Start(), events);
            && p.received <= lines && |p.received| == p.sent
            && Forwarded(p.received, forwards) == p.shown + (if p.consumer.Forwarding? && forwards(p.consumer.line)
                                                             then [p.consumer.line] else [])
            && (p.closed ==> p.received == lines)
            && (p.producer == Returned <==> p.closed)
            && (p.consumer == Exited ==> p.received == lines && p.shown == Forwarded(lines, forwards))
  {
    ExecInv(lines, forwards, Start(), events);
    var p := Exec(lines, forwards, Start(), events);
    assert lines[..|lines|] == lines;
    if p.consumer.Forwarding? {
      assert lines[..p.sent][..p.sent - 1] == lines[..p.sent - 1];
    }
  }

  /** Producer and consumer never deadlock: as long as not both have finished, one of them can step; no run is longer
      than 2 * |lines| + 2 steps. */
  lemma NoDeadlock<T(!new)>(lines: seq<T>, forwards: T -> bool, events: seq<Event>)
    requires IsRun(lines, forwards, Start(), events)
    ensures var p := Exec(lines, forwards, Start(), events);
            && ((p.producer == Returned && p.consumer == Exited) || exists e :: Enabled(lines, p, e))
            && |events| <= 2 * |lines| + 2
  {
    ExecInv(lines, forwards, Start(), events);
    var p := Exec(lines, forwards, Start(), events);
    if p.consumer.Forwarding? {
      assert Enabled(lines, p, Forward);
    } else if p.producer == Sending && p.sent >= |lines| {
      assert Enabled(lines, p, Event.Close);
    } else if p.producer == Sending && p.consumer.Receiving? {
      assert Enabled(lines, p, Handover);
    } else if p.consumer.Receiving? {
      assert Enabled(lines, p, Exit);
    }
  }
}
