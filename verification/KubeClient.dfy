/** The three operations as the client executes them: statements, loops, a log channel, and a cluster that may change
    between any two calls. Each is proved to be one run of the program in Operations, so everything proved about runs
    holds for it. */
module KubeClient {
  import opened Decimal
  import opened Wrappers
  import opened KubeObjects
  import opened Sorting
  import opened Revisions
  import opened Operations
  import opened Cluster
  import opened ClusterInvariants
  import opened ClusterTheorems
  import opened Traces
  import opened RunLogs
  import opened RunTheorems

  /** What happens before the client's next call is served, and how that call is resolved. */
  datatype Turn = Turn(before: seq<Event>, choice: Choice)

  /** The event is a step of somebody else. */
  predicate Foreign(e: Event, id: RunId) { !(e.Call? && e.id == id) }

  lemma ForeignKeepsRun(s: System, e: Event, id: RunId)
    requires s.versions != [] && id in s.runs && Foreign(e, id)
    ensures id in Step(s, e).runs && Step(s, e).runs[id] == s.runs[id]
  {
  }

  /** A channel of log lines. Sending on a closed channel and closing it twice are run-time errors, excluded here by
      the preconditions. */
  class LogChannel {
    var sent: seq<Line>
    var closed: bool

    constructor ()
      ensures sent == [] && !closed
    {
      sent, closed := [], false;
    }

    method Send(line: Line)
      requires !closed
      modifies this
      ensures sent == old(sent) + [line] && !closed
    {
      sent := sent + [line];
    }

    method Close()
      requires !closed
      modifies this
      ensures closed && sent == old(sent)
    {
      closed := true;
    }
  }

  /** The cluster as one run sees it: the i-th call is served in the i-th turn. */
  class Connection {
    const id: RunId
    const turns: nat -> Turn
    var clock: nat
    var system: System
    ghost const start: System
    ghost var events: seq<Event>

    ghost predicate Valid()
      reads this
    {
      && Initial(start) && system == Exec(start, events) && id in system.runs
      && (forall n: nat, e :: e in turns(n).before ==> Foreign(e, id))
    }

    /** A connection for a new run of the operation, in a cluster with any past. */
    constructor (id: RunId, op: Op, ticks: nat, turns: nat -> Turn, ghost start: System, system: System,
                 ghost past: seq<Event>)
      requires Initial(start) && system == Exec(start, past) && id !in system.runs
      requires forall n: nat, e :: e in turns(n).before ==> Foreign(e, id)
      ensures Valid() && this.id == id && Run() == NewRun(op, ticks) && events == past + [Spawn(id, op, ticks)]
    {
      this.id, this.turns, this.clock, this.start := id, turns, 0, start;
      this.system := Step(system, Spawn(id, op, ticks));
      this.events := past + [Spawn(id, op, ticks)];
      new;
      ExecSnoc(start, past, Spawn(id, op, ticks));
    }

    function Run(): Run
      reads this
      requires id in system.runs
    { system.runs[id] }

    /** The run is at this place and its next call is this request. */
    ghost predicate Asks(request: Request)
      reads this
    { Valid() && WellPlaced(Run().op, Run().at) && !Run().at.Done? && Ask(Run().op, Run().at) == request }

    /** The run has moved on from the place it was at by this reply. */
    ghost predicate MovedOn(before: Run, reply: Reply)
      reads this
    {
      && Valid() && WellPlaced(before.op, before.at) && !before.at.Done? && Fits(Ask(before.op, before.at), reply)
      && Run().op == before.op && Run().at == Advance(before.op, before.at, reply)
      && Run().lines == before.lines + Lines(before.op, before.at, reply)
      && Run().ticks <= before.ticks && (reply.Tick? ==> Run().ticks < before.ticks)
    }

    method Exchange(request: Request, choice: Choice) returns (reply: Reply)
      requires Asks(request) && Fits(request, Answer(system, Run(), request, choice))
      modifies this`system, this`events
      ensures MovedOn(old(Run()), reply)
      ensures reply == Answer(old(system), old(Run()), request, choice)
    {
      reply := Answer(system, system.runs[id], request, choice);
      ExecSnoc(start, events, Call(id, choice));
      events := events + [Call(id, choice)];
      system := Step(system, Call(id, choice));
    }

    /** Lets the others act, then has the request served. */
    method Perform(request: Request) returns (reply: Reply)
      requires Asks(request) && !request.Sort?
      modifies this
      ensures MovedOn(old(Run()), reply)
    {
      var turn := turns(clock);
      clock := clock + 1;
      for i := 0 to |turn.before|
        invariant Valid() && Run() == old(Run())
      {
        ForeignKeepsRun(system, turn.before[i], id);
        ExecSnoc(start, events, turn.before[i]);
        events := events + [turn.before[i]];
        system := Step(system, turn.before[i]);
      }
      reply := Exchange(request, turn.choice);
    }

    method Get() returns (got: Result<Deployment>)
      requires Asks(Request.Get)
      modifies this
      ensures MovedOn(old(Run()), if got.Ok? then Got(got.value) else Error(got.error))
    {
      var reply := Perform(Request.Get);
      got := if reply.Got? then Ok(reply.dep) else Err(reply.message);
    }

    method List() returns (listed: Result<seq<ReplicaSet>>)
      requires Asks(Request.List)
      modifies this
      ensures MovedOn(old(Run()), if listed.Ok? then Listed(listed.value) else Error(listed.error))
    {
      var reply := Perform(Request.List);
      listed := if reply.Listed? then Ok(reply.sets) else Err(reply.message);
    }

    /** Returns the error text, or None for a nil error. */
    method Update(dep: Deployment) returns (err: Option<string>)
      requires Asks(Request.Update(dep))
      modifies this
      ensures MovedOn(old(Run()), if err.None? then Updated else Error(err.value))
    {
      var reply := Perform(Request.Update(dep));
      err := if reply.Updated? then None else Some(reply.message);
    }

    /** Blocks until the next tick of the poll or the end of the context. */
    method Wait() returns (ticked: bool)
      requires Asks(Request.Wait)
      modifies this
      ensures MovedOn(old(Run()), if ticked then Tick else Cancelled)
    {
      var reply := Perform(Request.Wait);
      ticked := reply.Tick?;
    }

    /** Records which of the possible orders the client's sort has produced; no call is made. */
    method Arranged(ghost listing: seq<ReplicaSet>, order: seq<ReplicaSet>)
      requires Asks(Sort(listing)) && IsSorting(Newer, order, listing)
      modifies this`system, this`events
      ensures MovedOn(old(Run()), Sorted(order))
    {
      var at := system.runs[id].at;
      assert at.Arranging?;
      var reply := Exchange(Sort(at.listing), Choice(None, [], order));
    }
  }

  method Log(logCh: LogChannel?, line: Line)
    requires logCh != null ==> !logCh.closed
    modifies logCh
    ensures logCh != null ==> !logCh.closed && logCh.sent == old(logCh.sent) + [line]
  {
    if logCh != null {
      logCh.Send(line);
    }
  }

  /** The deferred close(logCh), which panics on a nil channel although logging tolerates one. */
  method Close(logCh: LogChannel?, outcome: Outcome) returns (result: Ending<Outcome>)
    requires logCh != null ==> !logCh.closed
    modifies logCh
    ensures result == if logCh == null then Panicked else Returned(outcome)
    ensures logCh != null ==> logCh.closed && logCh.sent == old(logCh.sent)
  {
    if logCh == null {
      return Panicked;
    }
    logCh.Close();
    return Returned(outcome);
  }

  /** The channel, when there is one, has received exactly these lines and is still open. */
  ghost predicate Logged(logCh: LogChannel?, lines: seq<Line>)
    reads logCh
  { logCh != null ==> !logCh.closed && logCh.sent == lines }

  /** These lines are still to be sent. */
  ghost predicate AboutToLog(logCh: LogChannel?, rest: seq<Line>, lines: seq<Line>)
    reads logCh
  { logCh != null ==> !logCh.closed && logCh.sent + rest == lines }

  /** A fresh run of the operation. */
  ghost predicate Fresh(server: Connection?, logCh: LogChannel?, op: Op)
    reads server, logCh
  {
    && Logged(logCh, [])
    && (server != null ==>
          server.Valid() && server.Run().at == Begin && server.Run().op == op && server.Run().lines == [])
  }

  /** The run ended with the outcome returned, unless closing a nil channel panicked; the channel is closed, after
      exactly the run's lines. */
  ghost predicate Finished(server: Connection, logCh: LogChannel?, op: Op, result: Ending<Outcome>)
    reads server, logCh
  {
    && server.Valid() && server.Run().op == op && server.Run().at.Done?
    && result == (if logCh == null then Panicked else Returned(server.Run().at.outcome))
    && (logCh != null ==> logCh.closed && logCh.sent == server.Run().lines)
    && Told(server.Run())
  }

  /** What the run asked, wrote and heard is what its operation calls for, its outcome is the one its last exchange
      explains, and its lines tell both. */
  ghost predicate Told(run: Run) {
    && Tells(run.op, run.at, run.trace)
    && OutcomeIsLogged(run.op, run.at, run.lines) && ProgressIsLogged(run.op, run.trace, run.lines)
  }

  lemma RunIsTold(server: Connection)
    requires server.Valid()
    ensures Told(server.Run())
  {
    RunTells(server.start, server.events, server.id);
    LogTells(server.start, server.events, server.id);
  }

  /** Without a client nothing is called. */
  ghost predicate Uninitialised(logCh: LogChannel?, lines: seq<Line>, result: Ending<Outcome>,
                                expected: Ending<Outcome>)
    reads logCh
  {
    && result == (if logCh == null then Panicked else expected)
    && (logCh != null ==> logCh.closed && logCh.sent == lines)
  }

  /** What a nil error promises: the run's edit was committed once (or, for a rollback, five times refused) and touched
      its own field only, and a version not older than the commit satisfied the operation's counts. */
  ghost predicate Achieved(server: Connection)
    reads server
    requires server.Valid()
  {
    var s, run := server.system, server.Run();
    && run.read < |s.versions| && RolledOut(run.op, s.versions[run.read].dep)
    && CommitsOf(s.commits, server.id) == (if GaveUp(run) then 0 else 1)
    && (!GaveUp(run) ==>
          && run.commit.Some? && run.commit.value < |s.commits|
          && s.commits[run.commit.value].author == Some(server.id)
          && OwnFieldOnly(run, StoredBefore(s, run.commit.value), StoredBefore(s, run.commit.value + 1))
          && s.commits[run.commit.value].index <= run.read)
  }

  /** What was stored before commit k. */
  function StoredBefore(s: System, k: nat): Desired
    requires s.versions != [] && k <= |s.commits|
  { Fold(DesiredOf(s.versions[0].dep), s.commits[..k]) }

  lemma CommitsWereOwn(server: Connection)
    requires server.Valid() && server.Run().at == Done(Success) && !GaveUp(server.Run())
    ensures var s, run := server.system, server.Run();
            && run.commit.Some? && run.commit.value < |s.commits|
            && s.commits[run.commit.value].author == Some(server.id)
            && s.versions != []
            && OwnFieldOnly(run, StoredBefore(s, run.commit.value), StoredBefore(s, run.commit.value + 1))
  {
    hide OwnFieldOnly;
    hide Fold;
    hide Exec;
    SuccessHasCommitted(server.start, server.events, server.id);
    ExecExtends(server.start, server.events);
    CommitsTouchOneField(server.start, server.events, server.Run().commit.value, server.id);
  }

  lemma SuccessAchieves(server: Connection)
    requires server.Valid() && server.Run().at == Done(Success)
    ensures Achieved(server) && (GaveUp(server.Run()) ==> server.Run().op.Rollback?)
  {
    hide OwnFieldOnly;
    hide RolledOut;
    hide Exec;
    hide StoredBefore;
    CommitsPerRun(server.start, server.events, server.id);
    ReadAfterWrite(server.start, server.events, server.id);
    if !GaveUp(server.Run()) {
      CommitsWereOwn(server);
    }
  }

  /** The run is at this place, and everything it has to say is on the channel. */
  ghost predicate Stands(server: Connection, logCh: LogChannel?, op: Op, at: Place)
    reads server, logCh
  {
    server.Valid() && server.Run().op == op && server.Run().at == at && Logged(logCh, server.Run().lines)
  }

  // ---------- Scale ----------

  method PollScale(server: Connection, replicas: Int32, logCh: LogChannel?) returns (outcome: Outcome)
    requires Stands(server, logCh, Scale(replicas), Polling)
    modifies server, logCh
    ensures Stands(server, logCh, Scale(replicas), Done(outcome))
  {
    hide Exec;
    hide Initial;
    hide Select;
    while true
      invariant Stands(server, logCh, Scale(replicas), Polling)
      decreases server.Run().ticks
    {
      var polled := server.Get();
      if polled.Err? {
        Log(logCh, ReadError);
        return Failed(PollFailed(polled.error));
      }
      var updated := polled.value;
      Log(logCh, Progress(updated.status.availableReplicas));
      if updated.status.availableReplicas == replicas {
        Log(logCh, Completed);
        return Success;
      }
      var ticked := server.Wait();
      if !ticked {
        return Failed(ContextEnded);
      }
    }
  }

  method RunScale(server: Connection, replicas: Int32, logCh: LogChannel?) returns (outcome: Outcome)
    requires Stands(server, logCh, Scale(replicas), Begin)
    modifies server, logCh
    ensures Stands(server, logCh, Scale(replicas), Done(outcome))
  {
    hide Exec;
    hide Initial;
    hide Select;
    var got := server.Get();
    if got.Err? {
      Log(logCh, FetchError);
      return Failed(FetchFailed(got.error));
    }
    var dep := got.value;
    Log(logCh, Scaling(replicas));
    dep := dep.(spec := dep.spec.(replicas := replicas));
    var err := server.Update(dep);
    if err.Some? {
      Log(logCh, UpdateError);
      return Failed(UpdateRefused(err.value));
    }
    Log(logCh, Launched);
    outcome := PollScale(server, replicas, logCh);
  }

  method ScaleDeploymentWithLogs(server: Connection?, replicas: Int32, logCh: LogChannel?)
    returns (result: Ending<Outcome>)
    requires Fresh(server, logCh, Scale(replicas))
    modifies server, logCh
    ensures server == null ==> Uninitialised(logCh, [], result, Returned(Failed(NotInitialised)))
    ensures server != null ==> Finished(server, logCh, Scale(replicas), result)
    ensures server != null && server.Run().at == Done(Success) ==> Achieved(server) && !GaveUp(server.Run())
  {
    var outcome := Failed(NotInitialised);
    if server != null {
      outcome := RunScale(server, replicas, logCh);
      RunIsTold(server);
      if outcome == Success {
        SuccessAchieves(server);
      }
    }
    result := Close(logCh, outcome);
  }

  // ---------- Restart ----------

  method PollRestart(server: Connection, stamp: string, logCh: LogChannel?) returns (outcome: Outcome)
    requires Stands(server, logCh, Restart(stamp), Polling)
    modifies server, logCh
    ensures Stands(server, logCh, Restart(stamp), Done(outcome))
  {
    hide Exec;
    hide Initial;
    hide Select;
    while true
      invariant Stands(server, logCh, Restart(stamp), Polling)
      decreases server.Run().ticks
    {
      var polled := server.Get();
      if polled.Err? {
        Log(logCh, ReadError);
        return Failed(PollFailed(polled.error));
      }
      var updated := polled.value;
      var ready := updated.generation <= updated.status.observedGeneration &&
                   updated.status.updatedReplicas == updated.spec.replicas &&
                   updated.status.availableReplicas == updated.spec.replicas &&
                   updated.status.unavailableReplicas == 0;
      Log(logCh, Progress(updated.status.availableReplicas));
      if ready {
        Log(logCh, Completed);
        return Success;
      }
      var ticked := server.Wait();
      if !ticked {
        return Failed(ContextEnded);
      }
    }
  }

  method RunRestart(server: Connection, stamp: string, logCh: LogChannel?) returns (outcome: Outcome)
    requires Stands(server, logCh, Restart(stamp), Begin)
    modifies server, logCh
    ensures Stands(server, logCh, Restart(stamp), Done(outcome))
  {
    hide Exec;
    hide Initial;
    hide Select;
    var got := server.Get();
    if got.Err? {
      Log(logCh, FetchError);
      return Failed(FetchFailed(got.error));
    }
    var dep := got.value;
    var template := dep.spec.template;
    if template.annotations.None? {
      template := template.(annotations := Some(map[]));
    }
    template := template.(annotations := Some(template.annotations.value[RESTARTED_AT := stamp]));
    dep := dep.(spec := dep.spec.(template := template));
    var err := server.Update(dep);
    if err.Some? {
      Log(logCh, UpdateError);
      return Failed(UpdateRefused(err.value));
    }
    Log(logCh, Launched);
    outcome := PollRestart(server, stamp, logCh);
  }

  method RestartDeploymentWithLogs(server: Connection?, stamp: string, logCh: LogChannel?)
    returns (result: Ending<Outcome>)
    requires Fresh(server, logCh, Restart(stamp))
    modifies server, logCh
    ensures server == null ==> Uninitialised(logCh, [], result, Returned(Failed(NotInitialised)))
    ensures server != null ==> Finished(server, logCh, Restart(stamp), result)
    ensures server != null && server.Run().at == Done(Success) ==> Achieved(server) && !GaveUp(server.Run())
  {
    var outcome := Failed(NotInitialised);
    if server != null {
      outcome := RunRestart(server, stamp, logCh);
      RunIsTold(server);
      if outcome == Success {
        SuccessAchieves(server);
      }
    }
    result := Close(logCh, outcome);
  }

  // ---------- Rollback ----------

  method FetchDeployment(server: Connection, revision: Int64, logCh: LogChannel?)
    returns (found: Option<Deployment>, failure: Failure)
    requires Stands(server, logCh, Rollback(revision), Begin)
    modifies server, logCh
    ensures Stands(server, logCh, Rollback(revision),
                   match found case None => Done(Failed(failure)) case Some(dep) => Listing(dep))
  {
    hide Exec;
    hide Initial;
    failure := NotInitialised;
    Log(logCh, Fetching);
    var got := server.Get();
    if got.Err? {
      Log(logCh, FetchError);
      return None, FetchFailed(got.error);
    }
    var dep := got.value;
    Log(logCh, SelectorFetching);
    if !dep.selectorOk {
      Log(logCh, SelectorError);
      return None, BadSelector;
    }
    Log(logCh, Selector);
    Log(logCh, ListingSets);
    found := Some(dep);
  }

  /** Reads the deployment and lists its ReplicaSets. */
  method FetchSets(server: Connection, revision: Int64, logCh: LogChannel?)
    returns (found: Option<(Deployment, seq<ReplicaSet>)>, failure: Failure)
    requires Stands(server, logCh, Rollback(revision), Begin)
    modifies server, logCh
    ensures found.None? ==> Stands(server, logCh, Rollback(revision), Done(Failed(failure)))
    ensures found.Some? ==> server.Valid() && server.Run().op == Rollback(revision)
                            && server.Run().at == Arranging(found.value.0, found.value.1)
                            && AboutToLog(logCh,
                                          [SetsFound(|found.value.1|)] + SetLines(found.value.1, |found.value.1|),
                                          server.Run().lines)
  {
    hide Exec;
    hide Initial;
    hide SetLines;
    var dep, why := FetchDeployment(server, revision, logCh);
    if dep.None? {
      return None, why;
    }
    failure := why;
    var listed := server.List();
    if listed.Err? {
      Log(logCh, ListError);
      return None, ListFailed(listed.error);
    }
    found := Some((dep.value, listed.value));
  }

  /** Logs the list. */
  method LogSets(logCh: LogChannel?, sets: seq<ReplicaSet>)
    requires logCh != null ==> !logCh.closed
    modifies logCh
    ensures logCh != null ==>
              !logCh.closed && logCh.sent == old(logCh.sent) + ([SetsFound(|sets|)] + SetLines(sets, |sets|))
  {
    if logCh == null {
      return;
    }
    logCh.Send(SetsFound(|sets|));
    for i := 0 to |sets|
      invariant !logCh.closed && logCh.sent == old(logCh.sent) + ([SetsFound(|sets|)] + SetLines(sets, i))
    {
      logCh.Send(SetLine(i, sets[i].name));
    }
  }

  /** The list as a slice that can be sorted in place. */
  method Slice(sets: seq<ReplicaSet>) returns (items: array<ReplicaSet>)
    ensures fresh(items) && items[..] == sets
  {
    items := new ReplicaSet[|sets|](i requires 0 <= i < |sets| => sets[i]);
  }

  /** Where the rollback stands after sorting, and what it says then. */
  function AfterSort(selection: Selection): (Place, seq<Line>) {
    match selection
    case Chosen(target) => (Attempt(0, target), [TargetFound(target.name), Applying])
    case Refused(why) => (Done(Failed(why)), [Refusal(why)])
  }

  /** Logs the list and sorts it, newest first. */
  method SortSets(server: Connection, revision: Int64, dep: Deployment, sets: seq<ReplicaSet>, logCh: LogChannel?)
    returns (items: array<ReplicaSet>)
    requires server.Valid() && server.Run().op == Rollback(revision) && server.Run().at == Arranging(dep, sets)
    requires AboutToLog(logCh, [SetsFound(|sets|)] + SetLines(sets, |sets|), server.Run().lines)
    modifies server, logCh
    ensures fresh(items) && IsSorting(Newer, items[..], sets)
    ensures server.Valid() && server.Run().op == Rollback(revision)
    ensures server.Run().at == AfterSort(Select(revision, dep, items[..])).0
    ensures AboutToLog(logCh, AfterSort(Select(revision, dep, items[..])).1, server.Run().lines)
  {
    hide Exec;
    hide Initial;
    hide SetLines;
    hide Select;
    hide Ready;
    hide IsConflict;
    LogSets(logCh, sets);
    items := Slice(sets);
    SortSlice(items, Newer);
    server.Arranged(sets, items[..]);
  }

  /** The checks and searches on the sorted slice. */
  method Pick(items: array<ReplicaSet>, dep: Deployment, revision: Int64) returns (selection: Selection)
    ensures selection == Select(revision, dep, items[..])
  {
    if items.Length < 2 {
      return Refused(TooFewRevisions);
    }
    if REVISION_KEY !in dep.annotations {
      return Refused(NoCurrentRevision);
    }
    var current := ParseInt(dep.annotations[REVISION_KEY]);
    if !current.ok {
      return Refused(BadCurrentRevision);
    }
    if revision > 0 {
      var target := FindRevision(items, revision);
      if target.None? {
        return Refused(RevisionNotFound(revision));
      }
      return Chosen(target.value);
    }
    var target := FindPrevious(items, Previous(current.value));
    if target.None? {
      return Refused(PreviousNotFound(Previous(current.value)));
    }
    return Chosen(target.value);
  }

  method ChooseTarget(server: Connection, revision: Int64, logCh: LogChannel?) returns (selection: Selection)
    requires Stands(server, logCh, Rollback(revision), Begin)
    modifies server, logCh
    ensures Stands(server, logCh, Rollback(revision),
                   match selection case Chosen(target) => Attempt(0, target) case Refused(why) => Done(Failed(why)))
  {
    hide Exec;
    hide Initial;
    hide SetLines;
    hide Select;
    hide Ready;
    hide IsConflict;
    hide IsSorting;
    var found, failure := FetchSets(server, revision, logCh);
    if found.None? {
      return Refused(failure);
    }
    var (dep, sets) := found.value;
    var items := SortSets(server, revision, dep, sets, logCh);
    selection := Pick(items, dep, revision);
    match selection {
      case Refused(why) =>
        Log(logCh, Refusal(why));
      case Chosen(target) =>
        Log(logCh, TargetFound(target.name));
        Log(logCh, Applying);
    }
  }

  /** The update loop: on return the run polls, or has failed. */
  method ApplyTemplate(server: Connection, revision: Int64, target: ReplicaSet, logCh: LogChannel?)
    returns (failure: Option<Failure>)
    requires Stands(server, logCh, Rollback(revision), Attempt(0, target))
    modifies server, logCh
    ensures Stands(server, logCh, Rollback(revision),
                   match failure case None => Polling case Some(why) => Done(Failed(why)))
  {
    hide Exec;
    hide Initial;
    hide Select;
    hide Ready;
    hide IsConflict;
    hide IsSorting;
    var attempt := 0;
    while attempt < MAX_ATTEMPTS
      invariant 0 <= attempt <= MAX_ATTEMPTS
      invariant server.Valid() && server.Run().op == Rollback(revision)
      invariant attempt < MAX_ATTEMPTS ==>
                  server.Run().at == Attempt(attempt, target) && Logged(logCh, server.Run().lines)
      invariant attempt == MAX_ATTEMPTS ==>
                  server.Run().at == Polling && AboutToLog(logCh, [AwaitingRollback], server.Run().lines)
    {
      var got := server.Get();
      if got.Err? {
        Log(logCh, FetchError);
        return Some(FetchFailed(got.error));
      }
      var dep := got.value;
      dep := dep.(spec := dep.spec.(template := target.template));
      var err := server.Update(dep);
      if err.None? {
        break;
      }
      if IsConflict(err.value) {
        Log(logCh, Conflict);
        attempt := attempt + 1;
        continue;
      }
      Log(logCh, UpdateError);
      return Some(UpdateRefused(err.value));
    }
    Log(logCh, AwaitingRollback);
    return None;
  }

  method PollRollback(server: Connection, revision: Int64, logCh: LogChannel?) returns (outcome: Outcome)
    requires Stands(server, logCh, Rollback(revision), Polling)
    modifies server, logCh
    ensures Stands(server, logCh, Rollback(revision), Done(outcome))
  {
    hide Exec;
    hide Initial;
    hide Select;
    hide IsConflict;
    hide IsSorting;
    while true
      invariant Stands(server, logCh, Rollback(revision), Polling)
      decreases server.Run().ticks
    {
      var polled := server.Get();
      if polled.Err? {
        Log(logCh, ReadError);
        Log(logCh, RollbackError);
        return Failed(PollFailed(polled.error));
      }
      var dep := polled.value;
      var ready := dep.status.availableReplicas == dep.spec.replicas &&
                   dep.status.updatedReplicas == dep.spec.replicas &&
                   dep.status.replicas == dep.spec.replicas &&
                   dep.status.unavailableReplicas == 0;
      Log(logCh, Progress(dep.status.availableReplicas));
      if ready {
        Log(logCh, RolledBack);
        return Success;
      }
      var ticked := server.Wait();
      if !ticked {
        Log(logCh, RollbackError);
        return Failed(ContextEnded);
      }
    }
  }

  method RunRollback(server: Connection, revision: Int64, logCh: LogChannel?) returns (outcome: Outcome)
    requires Stands(server, logCh, Rollback(revision), Begin)
    modifies server, logCh
    ensures Stands(server, logCh, Rollback(revision), Done(outcome))
  {
    var selection := ChooseTarget(server, revision, logCh);
    if selection.Refused? {
      return Failed(selection.why);
    }
    var failure := ApplyTemplate(server, revision, selection.target, logCh);
    if failure.Some? {
      return Failed(failure.value);
    }
    outcome := PollRollback(server, revision, logCh);
  }

  method RollbackDeploymentWithLogs(server: Connection?, revision: Int64, logCh: LogChannel?)
    returns (result: Ending<Outcome>)
    requires Fresh(server, logCh, Rollback(revision))
    modifies server, logCh
    ensures server == null ==> Uninitialised(logCh, [Fetching], result, Panicked)
    ensures server != null ==> Finished(server, logCh, Rollback(revision), result)
    ensures server != null && server.Run().at == Done(Success) ==> Achieved(server)
  {
    if server == null {
      // The first call goes through a nil client and panics; the deferred close still runs.
      Log(logCh, Fetching);
      var _ := Close(logCh, Success);
      return Panicked;
    }
    var outcome := RunRollback(server, revision, logCh);
    RunIsTold(server);
    if outcome == Success {
      SuccessAchieves(server);
    }
    result := Close(logCh, outcome);
  }
}
