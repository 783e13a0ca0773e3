/** The alert poller: any number of Start and Stop calls and the goroutines they start and wait for, in every
    interleaving. */
module Poller {
  /** Where a goroutine is: not yet running, inside a check of the alerts, waiting for a tick or the end of the context,
      on its way out, gone. */
  datatype Place = Launched | Checking | Selecting | Leaving | Exited

  /** begun counts the checks the goroutine has begun. */
  datatype Worker = Worker(place: Place, begun: nat)

  /** counter is the wait group's; starting counts the Start calls between their Add and their go statement, waiting
      the Stop calls inside Wait, returned those that have returned; checks counts all checks begun. */
  datatype State = State(cancelled: bool, counter: int, starting: nat, workers: seq<Worker>, waiting: nat,
                         returned: nat, checks: nat)

  const FRESH: State := State(false, 0, 0, [], 0, 0, 0)

  datatype Event =
    | Add                   // Start: wg.Add(1)
    | Go                    // Start: the go statement
    | Begin(g: nat)         // the goroutine begins its first check
    | CheckEnds(g: nat)
    | Tick(g: nat)          // select takes the ticker and a check begins, cancelled or not
    | SeeDone(g: nat)       // select takes the end of the context
    | Finish(g: nat)        // the deferred wg.Done()
    | Cancel                // Stop: cancelFunc()
    | Return                // Stop: Wait returns

  predicate At(s: State, g: nat, place: Place) { g < |s.workers| && s.workers[g].place == place }

  predicate Enabled(s: State, e: Event) {
    match e
    case Add | Cancel => true
    case Go => s.starting > 0
    case Begin(g) => At(s, g, Launched)
    case CheckEnds(g) => At(s, g, Checking)
    case Tick(g) => At(s, g, Selecting)
    case SeeDone(g) => At(s, g, Selecting) && s.cancelled
    case Finish(g) => At(s, g, Leaving)
    case Return => s.waiting > 0 && s.counter == 0
  }

  function Move(s: State, g: nat, place: Place): State
    requires g < |s.workers|
  { s.(workers := s.workers[g := s.workers[g].(place := place)]) }

  function BeginCheck(s: State, g: nat): State
    requires g < |s.workers|
  {
    s.(workers := s.workers[g := Worker(Checking, s.workers[g].begun + 1)], checks := s.checks + 1)
  }

  function Step(s: State, e: Event): State
    requires Enabled(s, e)
  {
    match e
    case Add => s.(counter := s.counter + 1, starting := s.starting + 1)
    case Go => s.(starting := s.starting - 1, workers := s.workers + [Worker(Launched, 0)])
    case Begin(g) => BeginCheck(s, g)
    case CheckEnds(g) => Move(s, g, Selecting)
    case Tick(g) => BeginCheck(s, g)
    case SeeDone(g) => Move(s, g, Leaving)
    case Finish(g) => Move(s, g, Exited).(counter := s.counter - 1)
    case Cancel => s.(cancelled := true, waiting := s.waiting + 1)
    case Return => s.(waiting := s.waiting - 1, returned := s.returned + 1)
  }

  predicate IsRun(s: State, events: seq<Event>)
    decreases |events|
  {
    events == [] || (Enabled(s, events[0]) && IsRun(Step(s, events[0]), events[1..]))
  }

  function Exec(s: State, events: seq<Event>): State
    requires IsRun(s, events)
    decreases |events|
  {
    if events == [] then s else Exec(Step(s, events[0]), events[1..])
  }

  /** How many of the events are of a kind. */
  function Count(events: seq<Event>, kind: Event -> bool): nat {
    if events == [] then 0 else (if kind(events[0]) then 1 else 0) + Count(events[1..], kind)
  }

  function Starts(events: seq<Event>): nat { Count(events, (e: Event) => e.Add?) }

  function Ticks(events: seq<Event>): nat { Count(events, (e: Event) => e.Tick?) }

  // ---------- sums over the goroutines ----------

  function Sum(workers: seq<Worker>, weight: Worker -> nat): nat {
    if workers == [] then 0
    else Sum(workers[..|workers| - 1], weight) + weight(workers[|workers| - 1])
  }

  lemma {:induction false} SumUpdate(workers: seq<Worker>, weight: Worker -> nat, g: nat, w: Worker)
    requires g < |workers|
    ensures Sum(workers[g := w], weight) + weight(workers[g]) == Sum(workers, weight) + weight(w)
  {
    var k := |workers| - 1;
    if g < k {
      SumUpdate(workers[..k], weight, g, w);
      assert workers[g := w][..k] == workers[..k][g := w];
    } else {
      assert workers[g := w][..k] == workers[..k];
    }
  }

  lemma SumSnoc(workers: seq<Worker>, weight: Worker -> nat, w: Worker)
    ensures Sum(workers + [w], weight) == Sum(workers, weight) + weight(w)
  {
    assert (workers + [w])[..|workers|] == workers;
  }

  lemma {:induction false} SumIsZero(workers: seq<Worker>, weight: Worker -> nat)
    ensures Sum(workers, weight) == 0 <==> forall g :: 0 <= g < |workers| ==> weight(workers[g]) == 0
  {
    if workers != [] {
      var front := workers[..|workers| - 1];
      SumIsZero(front, weight);
      assert forall g :: 0 <= g < |front| ==> front[g] == workers[g];
    }
  }

  function Alive(w: Worker): nat { if w.place == Exited then 0 else 1 }

  /** Steps other than ticks the goroutine has before it. */
  function Ahead(w: Worker): nat {
    match w.place
    case Launched => 4
    case Checking => 3
    case Selecting => 2
    case Leaving => 1
    case Exited => 0
  }

  function Begun(w: Worker): nat { w.begun }

  // ---------- the invariant ----------

  /** A goroutine leaves only after it has begun a check and the context has ended. */
  predicate WorkerOk(s: State, w: Worker) {
    && (w.place == Leaving || w.place == Exited ==> s.cancelled)
    && (w.place == Launched <==> w.begun == 0)
  }

  predicate SumsOk(s: State) {
    s.counter == s.starting + Sum(s.workers, Alive) && s.checks == Sum(s.workers, Begun)
  }

  predicate WorkersOk(s: State) {
    && (s.waiting + s.returned > 0 ==> s.cancelled)
    && (forall g :: 0 <= g < |s.workers| ==> WorkerOk(s, s.workers[g]))
  }

  predicate Inv(s: State) { SumsOk(s) && WorkersOk(s) }

  lemma StepKeepsSums(s: State, e: Event)
    requires SumsOk(s) && Enabled(s, e)
    ensures SumsOk(Step(s, e))
  {
    hide Sum;
    match e
    case Go =>
      SumSnoc(s.workers, Alive, Worker(Launched, 0));
      SumSnoc(s.workers, Begun, Worker(Launched, 0));
    case Begin(g) => UpdateSums(s, g, Step(s, e).workers[g]);
    case CheckEnds(g) => UpdateSums(s, g, Step(s, e).workers[g]);
    case Tick(g) => UpdateSums(s, g, Step(s, e).workers[g]);
    case SeeDone(g) => UpdateSums(s, g, Step(s, e).workers[g]);
    case Finish(g) => UpdateSums(s, g, Step(s, e).workers[g]);
    case _ =>
  }

  lemma StepKeepsWorkers(s: State, e: Event)
    requires WorkersOk(s) && Enabled(s, e)
    ensures WorkersOk(Step(s, e))
  {
  }

  lemma StepKeepsInv(s: State, e: Event)
    requires Inv(s) && Enabled(s, e)
    ensures Inv(Step(s, e))
  {
    StepKeepsSums(s, e);
    StepKeepsWorkers(s, e);
  }

  lemma UpdateSums(s: State, g: nat, w: Worker)
    requires g < |s.workers|
    ensures Sum(s.workers[g := w], Alive) + Alive(s.workers[g]) == Sum(s.workers, Alive) + Alive(w)
    ensures Sum(s.workers[g := w], Begun) + Begun(s.workers[g]) == Sum(s.workers, Begun) + Begun(w)
  {
    SumUpdate(s.workers, Alive, g, w);
    SumUpdate(s.workers, Begun, g, w);
  }

  lemma {:induction false} ExecInv(s: State, events: seq<Event>)
    requires Inv(s) && IsRun(s, events)
    ensures Inv(Exec(s, events))
    decreases |events|
  {
    if events != [] {
      StepKeepsInv(s, events[0]);
      ExecInv(Step(s, events[0]), events[1..]);
    }
  }

  /** In every reachable state the wait group counts the Start calls under way and the goroutines not yet gone; whoever
      is leaving or gone has begun at least one check, whenever the context ended, and the context has ended. */
  lemma CounterIsExact(events: seq<Event>)
    requires IsRun(FRESH, events)
    ensures var s := Exec(FRESH, events);
            && s.counter == s.starting + Sum(s.workers, Alive)
            && s.checks == Sum(s.workers, Begun)
            && forall w :: w in s.workers && (w.place == Leaving || w.place == Exited) ==> s.cancelled && w.begun > 0
  {
    ExecInv(FRESH, events);
    var s := Exec(FRESH, events);
    forall w | w in s.workers && (w.place == Leaving || w.place == Exited) ensures s.cancelled && w.begun > 0 {
      var g :| 0 <= g < |s.workers| && s.workers[g] == w;
      assert WorkerOk(s, s.workers[g]);
    }
  }

  // ---------- Stop ----------

  /** Nothing is under way that could begin a check. */
  predicate Quiet(s: State) {
    s.starting == 0 && forall w :: w in s.workers ==> w.place == Leaving || w.place == Exited
  }

  /** A Stop can return exactly when every goroutine started so far is gone and no Start call is half done. */
  lemma StopReturnsLast(events: seq<Event>)
    requires IsRun(FRESH, events)
    ensures var s := Exec(FRESH, events);
            Enabled(s, Return) <==>
            s.waiting > 0 && s.starting == 0 && forall w :: w in s.workers ==> w.place == Exited
  {
    ExecInv(FRESH, events);
    var s := Exec(FRESH, events);
    SumIsZero(s.workers, Alive);
    if forall w :: w in s.workers ==> w.place == Exited {
      assert forall g :: 0 <= g < |s.workers| ==> s.workers[g] in s.workers;
    }
  }

  lemma {:induction false} QuietStays(s: State, more: seq<Event>)
    requires Quiet(s) && IsRun(s, more) && Starts(more) == 0
    ensures Exec(s, more).checks == s.checks
    decreases |more|
  {
    if more != [] {
      assert !more[0].Add? && Starts(more[1..]) == 0;
      assert Quiet(Step(s, more[0]));
      QuietStays(Step(s, more[0]), more[1..]);
    }
  }

  /** A way to the next check, with these Start calls. */
  predicate LeadsToCheck(s: State, more: seq<Event>, starts: nat) {
    IsRun(s, more) && Starts(more) <= starts && Exec(s, more).checks == s.checks + 1
  }

  lemma OneEvent(s: State, e: Event)
    requires Enabled(s, e)
    ensures IsRun(s, [e]) && Exec(s, [e]) == Step(s, e) && Starts([e]) == if e.Add? then 1 else 0
  {
    assert IsRun(Step(s, e), []) && Starts([]) == 0;
    assert [e][1..] == [];
    assert Starts([e]) == (if e.Add? then 1 else 0) + Starts([e][1..]);
  }

  lemma Prepend(s: State, e: Event, rest: seq<Event>, starts: nat)
    requires Enabled(s, e) && Step(s, e).checks == s.checks && LeadsToCheck(Step(s, e), rest, starts)
    ensures LeadsToCheck(s, [e] + rest, starts + if e.Add? then 1 else 0)
  {
    assert ([e] + rest)[1..] == rest;
  }

  lemma GoLeadsToCheck(s: State)
    requires s.starting > 0
    ensures exists more :: LeadsToCheck(s, more, 0)
  {
    var begin := Begin(|s.workers|);
    OneEvent(Step(s, Go), begin);
    Prepend(s, Go, [begin], 0);
  }

  lemma WorkerLeadsToCheck(s: State, g: nat)
    requires g < |s.workers| && s.workers[g].place != Leaving && s.workers[g].place != Exited
    ensures exists more :: LeadsToCheck(s, more, 0)
  {
    match s.workers[g].place
    case Launched =>
      OneEvent(s, Begin(g));
      assert LeadsToCheck(s, [Begin(g)], 0);
    case Checking =>
      OneEvent(Step(s, CheckEnds(g)), Tick(g));
      Prepend(s, CheckEnds(g), [Tick(g)], 0);
    case Selecting =>
      OneEvent(s, Tick(g));
      assert LeadsToCheck(s, [Tick(g)], 0);
  }

  lemma AddLeadsToCheck(s: State)
    ensures exists more :: LeadsToCheck(s, more, 1)
  {
    GoLeadsToCheck(Step(s, Add));
    var rest :| LeadsToCheck(Step(s, Add), rest, 0);
    Prepend(s, Add, rest, 0);
  }

  lemma NextCheckMayCome(s: State, n: nat)
    requires n > 0 || !Quiet(s)
    ensures exists more :: LeadsToCheck(s, more, n)
  {
    if s.starting > 0 {
      GoLeadsToCheck(s);
      var more :| LeadsToCheck(s, more, 0);
      assert LeadsToCheck(s, more, n);
    } else if w :| w in s.workers && w.place != Leaving && w.place != Exited {
      var g :| 0 <= g < |s.workers| && s.workers[g] == w;
      WorkerLeadsToCheck(s, g);
      var more :| LeadsToCheck(s, more, 0);
      assert LeadsToCheck(s, more, n);
    } else {
      AddLeadsToCheck(s);
      var more :| LeadsToCheck(s, more, 1);
      assert LeadsToCheck(s, more, n);
    }
  }

  /** From any state, whatever happens with at most n more Start calls, no further check begins exactly when n is 0 and
      everybody is leaving or gone. That the context has ended is not enough: a goroutine waiting in its select may
      take a tick all the same, and one just started makes its first check unconditionally. */
  lemma NoMoreChecksExactly(s: State, n: nat)
    ensures (forall more :: IsRun(s, more) && Starts(more) <= n ==> Exec(s, more).checks == s.checks)
            <==> n == 0 && Quiet(s)
  {
    if n == 0 && Quiet(s) {
      forall more | IsRun(s, more) && Starts(more) <= n ensures Exec(s, more).checks == s.checks {
        QuietStays(s, more);
      }
    } else {
      NextCheckMayCome(s, n);
      var more :| LeadsToCheck(s, more, n);
    }
  }

  /** When a Stop returns, all is quiet: no check runs, and none will begin unless Start is called again. */
  lemma QuietAfterStop(events: seq<Event>, more: seq<Event>)
    requires IsRun(FRESH, events) && Enabled(Exec(FRESH, events), Return)
    requires IsRun(Step(Exec(FRESH, events), Return), more) && Starts(more) == 0
    ensures var s, s' := Exec(FRESH, events), Exec(Step(Exec(FRESH, events), Return), more);
            && (forall w :: w in s.workers ==> w.place == Exited)
            && s'.checks == s.checks && s'.workers == s.workers
  {
    StopReturnsLast(events);
    GoneForGood(Step(Exec(FRESH, events), Return), more);
  }

  lemma {:induction false} GoneForGood(s: State, more: seq<Event>)
    requires s.starting == 0 && (forall w :: w in s.workers ==> w.place == Exited)
    requires IsRun(s, more) && Starts(more) == 0
    ensures Exec(s, more).checks == s.checks && Exec(s, more).workers == s.workers
    decreases |more|
  {
    if more != [] {
      GoneForGood(Step(s, more[0]), more[1..]);
    }
  }

  // ---------- Stop returns ----------

  /** Steps other than ticks still possible when nobody calls Start or Stop again. */
  function Work(s: State): nat { 5 * s.starting + Sum(s.workers, Ahead) + s.waiting }

  lemma StepWorks(s: State, e: Event)
    requires Enabled(s, e) && !e.Add? && !e.Cancel?
    ensures Work(Step(s, e)) + 1 <= Work(s) + if e.Tick? then 2 else 0
  {
    match e
    case Go => SumSnoc(s.workers, Ahead, Worker(Launched, 0));
    case Begin(g) => SumUpdate(s.workers, Ahead, g, Step(s, e).workers[g]);
    case CheckEnds(g) => SumUpdate(s.workers, Ahead, g, Step(s, e).workers[g]);
    case Tick(g) => SumUpdate(s.workers, Ahead, g, Step(s, e).workers[g]);
    case SeeDone(g) => SumUpdate(s.workers, Ahead, g, Step(s, e).workers[g]);
    case Finish(g) => SumUpdate(s.workers, Ahead, g, Step(s, e).workers[g]);
    case Return =>
  }

  lemma {:induction false} RunsEnd(s: State, more: seq<Event>)
    requires IsRun(s, more) && forall e :: e in more ==> !e.Add? && !e.Cancel?
    ensures |more| + Work(Exec(s, more)) <= Work(s) + 2 * Ticks(more)
    decreases |more|
  {
    if more != [] {
      StepWorks(s, more[0]);
      RunsEnd(Step(s, more[0]), more[1..]);
    }
  }

  /** The step needs no tick and no new call. */
  predicate Proceeds(s: State, e: Event) { Enabled(s, e) && !e.Add? && !e.Cancel? && !e.Tick? }

  /** A waiting Stop never hangs: until it returns something other than a tick can always happen, and without new calls
      a continuation has at most Work(s) steps and two more for each tick that select takes. */
  lemma StopReturns(events: seq<Event>, more: seq<Event>)
    requires IsRun(FRESH, events) && IsRun(Exec(FRESH, events), more)
    requires forall e :: e in more ==> !e.Add? && !e.Cancel?
    ensures var s := Exec(FRESH, events);
            && (s.waiting > 0 ==> exists e :: Proceeds(s, e))
            && |more| <= Work(s) + 2 * Ticks(more)
  {
    ExecInv(FRESH, events);
    var s := Exec(FRESH, events);
    RunsEnd(s, more);
    if s.waiting > 0 {
      SomethingProceeds(s);
    }
  }

  lemma SomethingProceeds(s: State)
    requires Inv(s) && s.waiting > 0
    ensures exists e :: Proceeds(s, e)
  {
    if s.starting > 0 {
      assert Proceeds(s, Go);
    } else if s.counter == 0 {
      assert Proceeds(s, Return);
    } else {
      SumIsZero(s.workers, Alive);
      var g: nat :| g < |s.workers| && Alive(s.workers[g]) > 0;
      match s.workers[g].place
      case Launched => assert Proceeds(s, Begin(g));
      case Checking => assert Proceeds(s, CheckEnds(g));
      case Selecting => assert Proceeds(s, SeeDone(g));
      case Leaving => assert Proceeds(s, Finish(g));
    }
  }

  /** Nor is there any bound on the checks begun after the context has ended: a goroutine waiting in its select can be
      made to begin n more. */
  lemma {:induction false} ChecksAfterCancelUnbounded(s: State, g: nat, n: nat)
    requires At(s, g, Selecting) && s.cancelled
    ensures exists more :: IsRun(s, more) && Starts(more) == 0 && Exec(s, more).checks == s.checks + n
    decreases n
  {
    if n == 0 {
      assert IsRun(s, []) && Exec(s, []) == s && Starts([]) == 0;
    } else {
      var s1 := Step(s, Tick(g));
      var s2 := Step(s1, CheckEnds(g));
      ChecksAfterCancelUnbounded(s2, g, n - 1);
      var rest :| IsRun(s2, rest) && Starts(rest) == 0 && Exec(s2, rest).checks == s2.checks + (n - 1);
      var tail := [CheckEnds(g)] + rest;
      assert tail[1..] == rest && IsRun(s1, tail) && Exec(s1, tail) == Exec(s2, rest) && Starts(tail) == 0;
      var more := [Tick(g)] + tail;
      assert more[1..] == tail && IsRun(s, more) && Exec(s, more) == Exec(s1, tail) && Starts(more) == 0;
    }
  }
}
