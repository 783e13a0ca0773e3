/** What the log of a run says about it: its progress lines are the counts it read, its last line its success, and each
    kind of error line stands for one kind of outcome. */
module RunLogs {
  import opened KubeObjects
  import opened Sorting
  import opened Decimal
  import opened Revisions
  import opened Operations
  import opened Traces

  // ---------- the words of the statements ----------

  /** The counts in the progress lines. */
  function Readings(lines: seq<Line>): seq<int> {
    if lines == [] then []
    else
      var line := lines[|lines| - 1];
      Readings(lines[..|lines| - 1]) + if line.Progress? then [line.available] else []
  }

  /** The counts of available replicas read while polling. */
  function PollReads(op: Op, t: Trace): seq<int> {
    if t == [] then []
    else
      var before, x := t[..|t| - 1], t[|t| - 1];
      PollReads(op, before)
      + if Polls(op, before) && x.reply.Got? then [x.reply.dep.status.availableReplicas] else []
  }

  predicate HasFailed(at: Place) { at.Done? && at.outcome.Failed? }

  /** The outcome can be read off the log: the line of success is there, as the last one, exactly after success, and
      each error line exactly after its error. */
  ghost predicate OutcomeIsLogged(op: Op, at: Place, lines: seq<Line>) {
    && (Completed in lines <==> at == Done(Success) && !op.Rollback?)
    && (RolledBack in lines <==> at == Done(Success) && op.Rollback?)
    && (at == Done(Success) ==> lines != [] && lines[|lines| - 1] == if op.Rollback? then RolledBack else Completed)
    && (FetchError in lines <==> HasFailed(at) && at.outcome.why.FetchFailed?)
    && (ListError in lines <==> HasFailed(at) && at.outcome.why.ListFailed?)
    && (UpdateError in lines <==> HasFailed(at) && at.outcome.why.UpdateRefused?)
    && (ReadError in lines <==> HasFailed(at) && at.outcome.why.PollFailed?)
    && (SelectorError in lines <==> HasFailed(at) && at.outcome.why.BadSelector?)
    && (RollbackError in lines <==>
          op.Rollback? && HasFailed(at) && (at.outcome.why.PollFailed? || at.outcome.why.ContextEnded?))
    && (forall why :: Refusal(why) in lines <==>
          at == Done(Failed(why))
          && (why.TooFewRevisions? || why.NoCurrentRevision? || why.BadCurrentRevision? || why.RevisionNotFound?
              || why.PreviousNotFound?))
  }

  /** The target's name is this. */
  predicate TargetNamed(op: Op, t: Trace, name: string) {
    && op.Rollback? && |t| > 2 && t[0].reply.Got? && t[2].reply.Sorted?
    && var chosen := Select(op.revision, t[0].reply.dep, t[2].reply.order); chosen.Chosen? && chosen.target.name == name
  }

  /** The target, and that the waiting has begun, can be read off it too. */
  ghost predicate MarksAreLogged(op: Op, t: Trace, lines: seq<Line>) {
    && (forall name :: TargetFound(name) in lines <==> TargetNamed(op, t, name))
    && (Launched in lines <==> !op.Rollback? && Polls(op, t))
    && (AwaitingRollback in lines <==> op.Rollback? && Polls(op, t))
    && (forall n :: Scaling(n) in lines <==> op == Scale(n) && t != [] && t[0].reply.Got?)
  }

  predicate ChoseTarget(op: Op, t: Trace) {
    && op.Rollback? && |t| > 2 && t[0].reply.Got? && t[2].reply.Sorted?
    && Select(op.revision, t[0].reply.dep, t[2].reply.order).Chosen?
  }

  /** So can the steps of a rollback up to its target, with the number and the name of each ReplicaSet listed. */
  ghost predicate StagesAreLogged(op: Op, t: Trace, lines: seq<Line>) {
    && (Fetching in lines <==> op.Rollback? && t != [])
    && (SelectorFetching in lines <==> op.Rollback? && t != [] && t[0].reply.Got?)
    && (Selector in lines <==> op.Rollback? && t != [] && t[0].reply.Got? && t[0].reply.dep.selectorOk)
    && (ListingSets in lines <==> op.Rollback? && t != [] && t[0].reply.Got? && t[0].reply.dep.selectorOk)
    && (forall n :: SetsFound(n) in lines <==>
          op.Rollback? && |t| > 1 && t[1].reply.Listed? && n == |t[1].reply.sets|)
    && (forall i: nat, name :: SetLine(i, name) in lines <==>
          op.Rollback? && |t| > 1 && t[1].reply.Listed? && i < |t[1].reply.sets| && t[1].reply.sets[i].name == name)
    && (Applying in lines <==> ChoseTarget(op, t))
  }

  /** So can every count read and every conflict. */
  ghost predicate ProgressIsLogged(op: Op, t: Trace, lines: seq<Line>) {
    && StagesAreLogged(op, t, lines)
    && Readings(lines) == PollReads(op, t)
    && multiset(lines)[Conflict] == ConflictCount(op, t)
    && MarksAreLogged(op, t, lines)
  }

  // ---------- the proof ----------

  lemma {:induction false} ReadingsConcat(a: seq<Line>, b: seq<Line>)
    ensures Readings(a + b) == Readings(a) + Readings(b)
  {
    if b == [] {
      assert a + b == a;
    } else {
      assert (a + b)[..|a + b| - 1] == a + b[..|b| - 1];
      ReadingsConcat(a, b[..|b| - 1]);
    }
  }

  /** Lines about ReplicaSets say nothing else. */
  lemma {:induction false} SetLinesOnly(sets: seq<ReplicaSet>, n: nat)
    requires n <= |sets|
    ensures Readings(SetLines(sets, n)) == []
    ensures forall line :: line in SetLines(sets, n) ==> line.SetLine?
  {
    if n > 0 {
      SetLinesOnly(sets, n - 1);
      assert SetLines(sets, n)[..n - 1] == SetLines(sets, n - 1) by { SetLinesLength(sets, n - 1); }
      SetLinesLength(sets, n - 1);
    }
  }

  lemma {:induction false} SetLinesLength(sets: seq<ReplicaSet>, n: nat)
    requires n <= |sets|
    ensures |SetLines(sets, n)| == n
  {
    if n > 0 {
      SetLinesLength(sets, n - 1);
    }
  }

  /** The lines a step adds tell its outcome. */
  ghost predicate NewLinesTell(op: Op, at: Place, reply: Reply)
    requires WellPlaced(op, at) && !at.Done? && Fits(Ask(op, at), reply)
  { OutcomeIsLogged(op, Advance(op, at, reply), Lines(op, at, reply)) }

  lemma BeginTells(op: Op, reply: Reply)
    requires Fits(Get, reply)
    ensures NewLinesTell(op, Begin, reply)
  {
  }

  lemma UpdateTells(op: Op, at: Place, reply: Reply)
    requires WellPlaced(op, at) && (at.Fetched? || at.Retrying?) && (reply.Updated? || reply.Error?)
    ensures NewLinesTell(op, at, reply)
  {
    hide IsConflict;
    hide Stamp;
  }

  lemma SetsTellNothing(op: Op, at: Place, added: seq<Line>)
    requires !at.Done? && forall line :: line in added ==> line.SetsFound? || line.SetLine?
    ensures OutcomeIsLogged(op, at, added)
  {
  }

  lemma ListTells(op: Op, base: Deployment, reply: Reply)
    requires op.Rollback? && Fits(List, reply)
    ensures NewLinesTell(op, Listing(base), reply)
  {
    hide SetLines;
    if reply.Listed? {
      hide OutcomeIsLogged;
      SetLinesOnly(reply.sets, |reply.sets|);
      SetsTellNothing(op, Arranging(base, reply.sets), Lines(op, Listing(base), reply));
    }
  }

  lemma SortTells(op: Op, base: Deployment, listing: seq<ReplicaSet>, reply: Reply)
    requires op.Rollback? && Fits(Sort(listing), reply)
    ensures NewLinesTell(op, Arranging(base, listing), reply)
  {
    hide ParseInt;
    hide FindText;
    hide FindValue;
  }

  lemma AttemptTells(op: Op, n: nat, target: ReplicaSet, reply: Reply)
    requires WellPlaced(op, Attempt(n, target)) && Fits(Get, reply)
    ensures NewLinesTell(op, Attempt(n, target), reply)
  {
  }

  lemma PollTells(op: Op, reply: Reply)
    requires Fits(Get, reply)
    ensures NewLinesTell(op, Polling, reply)
  {
    hide Ready;
  }

  lemma WaitTells(op: Op, reply: Reply)
    requires Fits(Wait, reply)
    ensures NewLinesTell(op, Waiting, reply)
  {
  }

  lemma LinesTell(op: Op, at: Place, reply: Reply)
    requires WellPlaced(op, at) && !at.Done? && Fits(Ask(op, at), reply)
    ensures NewLinesTell(op, at, reply)
  {
    hide NewLinesTell;
    match at
    case Begin => BeginTells(op, reply);
    case Fetched(_) => UpdateTells(op, at, reply);
    case Listing(base) => ListTells(op, base, reply);
    case Arranging(base, listing) => SortTells(op, base, listing, reply);
    case Attempt(n, target) => AttemptTells(op, n, target, reply);
    case Retrying(_, _, _) => UpdateTells(op, at, reply);
    case Polling => PollTells(op, reply);
    case Waiting => WaitTells(op, reply);
  }

  /** As long as the run is not over there is nothing in its log about its outcome. */
  lemma OutcomeJoins(op: Op, at: Place, next: Place, lines: seq<Line>, added: seq<Line>)
    requires OutcomeIsLogged(op, at, lines) && !at.Done? && OutcomeIsLogged(op, next, added)
    ensures OutcomeIsLogged(op, next, lines + added)
  {
  }

  lemma OutcomeStep(op: Op, at: Place, reply: Reply, lines: seq<Line>)
    requires WellPlaced(op, at) && !at.Done? && Fits(Ask(op, at), reply) && OutcomeIsLogged(op, at, lines)
    ensures OutcomeIsLogged(op, Advance(op, at, reply), lines + Lines(op, at, reply))
  {
    hide OutcomeIsLogged;
    hide Advance;
    hide Lines;
    LinesTell(op, at, reply);
    OutcomeJoins(op, at, Advance(op, at, reply), lines, Lines(op, at, reply));
  }

  // ---------- progress ----------

  lemma {:induction false} NoReadings(lines: seq<Line>)
    requires forall line :: line in lines ==> !line.Progress?
    ensures Readings(lines) == []
  {
    if lines != [] {
      var front := lines[..|lines| - 1];
      assert forall line :: line in front ==> line in lines;
      NoReadings(front);
    }
  }

  lemma ReadingOf(available: int)
    ensures Readings([Progress(available)]) == [available]
  {
    assert [Progress(available)][..0] == [];
  }

  /** The lines a step adds tell what its exchange adds to the counts read, ... */
  predicate AddsReading(op: Op, t: Trace, x: Exchange, added: seq<Line>) {
    Readings(added) == if Polls(op, t) && x.reply.Got? then [x.reply.dep.status.availableReplicas] else []
  }

  /** ... to the conflicts, ... */
  predicate AddsConflict(op: Op, x: Exchange, added: seq<Line>) {
    multiset(added)[Conflict] == if Conflicts(op, x) then 1 else 0
  }

  /** ... and to the rest. */
  ghost predicate AddsMark(op: Op, t: Trace, x: Exchange, added: seq<Line>) {
    && (forall name :: TargetFound(name) in added <==> |t| == 2 && TargetNamed(op, t + [x], name))
    && (Launched in added <==> !op.Rollback? && Polls(op, t + [x]) && !Polls(op, t))
    && (AwaitingRollback in added <==> op.Rollback? && Polls(op, t + [x]) && !Polls(op, t))
    && (forall n :: Scaling(n) in added <==> op == Scale(n) && t == [] && x.reply.Got?)
  }

  lemma PollReading(op: Op, t: Trace, dep: Deployment)
    requires Polls(op, t)
    ensures AddsReading(op, t, Exchange(Get, Got(dep)), Lines(op, Polling, Got(dep)))
  {
    hide Ready;
    var added := Lines(op, Polling, Got(dep));
    assert added == [Progress(dep.status.availableReplicas)] + added[1..];
    hide Polls;
    ReadingOf(dep.status.availableReplicas);
    NoReadings(added[1..]);
    ReadingsConcat([Progress(dep.status.availableReplicas)], added[1..]);
  }

  lemma NoProgressLine(op: Op, at: Place, reply: Reply)
    requires WellPlaced(op, at) && !at.Done? && Fits(Ask(op, at), reply) && !(at.Polling? && reply.Got?)
    ensures forall line :: line in Lines(op, at, reply) ==> !line.Progress?
  {
    hide Ready;
    hide Select;
    hide SetLines;
    hide IsConflict;
    if reply.Listed? {
      SetLinesOnly(reply.sets, |reply.sets|);
    }
  }

  lemma ReadingStep(op: Op, at: Place, t: Trace, reply: Reply)
    requires WellPlaced(op, at) && !at.Done? && Fits(Ask(op, at), reply) && Behind(op, at, t)
    ensures AddsReading(op, t, Exchange(Ask(op, at), reply), Lines(op, at, reply))
  {
    hide Lines;
    hide Polls;
    if at.Polling? && reply.Got? {
      PollReading(op, t, reply.dep);
    } else {
      NoProgressLine(op, at, reply);
      NoReadings(Lines(op, at, reply));
      if t == [] {
        assert !Polls(op, []) by { NothingPolls(op); }
      }
    }
  }

  lemma NothingPolls(op: Op)
    ensures !Polls(op, [])
  {
  }

  lemma RetryingConflict(op: Op, n: nat, target: ReplicaSet, dep: Deployment, reply: Reply)
    requires WellPlaced(op, Retrying(n, target, dep)) && (reply.Updated? || reply.Error?)
    ensures AddsConflict(op, Exchange(Ask(op, Retrying(n, target, dep)), reply),
                         Lines(op, Retrying(n, target, dep), reply))
  {
    hide IsConflict;
    hide TellsConflict;
    if reply.Error? {
      ConflictMeaning(reply.message);
    }
  }

  lemma NoConflictLine(op: Op, at: Place, reply: Reply)
    requires WellPlaced(op, at) && !at.Done? && !at.Retrying? && Fits(Ask(op, at), reply)
    ensures Conflict !in Lines(op, at, reply)
  {
    hide Ready;
    hide Select;
    hide SetLines;
    if reply.Listed? {
      SetLinesOnly(reply.sets, |reply.sets|);
    }
  }

  lemma ConflictStep(op: Op, at: Place, reply: Reply)
    requires WellPlaced(op, at) && !at.Done? && Fits(Ask(op, at), reply)
    ensures AddsConflict(op, Exchange(Ask(op, at), reply), Lines(op, at, reply))
  {
    hide Lines;
    hide TellsConflict;
    if at.Retrying? {
      RetryingConflict(op, at.n, at.target, at.dep, reply);
    } else {
      NoConflictLine(op, at, reply);
    }
  }

  /** No line marks anything, and the polling does not begin. */
  predicate Unmarked(op: Op, t: Trace, x: Exchange, added: seq<Line>) {
    && (forall line :: line in added ==>
          !line.TargetFound? && !line.Launched? && !line.AwaitingRollback? && !line.Scaling?)
    && (Polls(op, t + [x]) <==> Polls(op, t)) && t != [] && (op.Rollback? ==> |t| != 2)
  }

  lemma UnmarkedAdds(op: Op, t: Trace, x: Exchange, added: seq<Line>)
    requires Unmarked(op, t, x, added)
    ensures AddsMark(op, t, x, added)
  {
    hide Polls;
  }

  lemma MarkQuietly(op: Op, at: Place, t: Trace, reply: Reply)
    requires WellPlaced(op, at) && !at.Done? && Fits(Ask(op, at), reply) && Behind(op, at, t)
    requires at.Listing? || at.Attempt? || at.Polling? || at.Waiting?
    ensures Unmarked(op, t, Exchange(Ask(op, at), reply), Lines(op, at, reply))
  {
    hide Ready;
    hide Select;
    hide SetLines;
    PollsSnoc(op, t, Exchange(Ask(op, at), reply));
    if reply.Listed? {
      SetLinesOnly(reply.sets, |reply.sets|);
    }
  }

  lemma MarkBegin(op: Op, reply: Reply)
    requires Fits(Get, reply)
    ensures AddsMark(op, [], Exchange(Get, reply), Lines(op, Begin, reply))
  {
    PollsSnoc(op, [], Exchange(Get, reply));
    NothingPolls(op);
    hide Polls;
  }

  lemma MarkFetched(op: Op, dep: Deployment, t: Trace, reply: Reply)
    requires Behind(op, Fetched(dep), t) && (reply.Updated? || reply.Error?)
    ensures AddsMark(op, t, Exchange(Ask(op, Fetched(dep)), reply), Lines(op, Fetched(dep), reply))
  {
    PollsSnoc(op, t, Exchange(Ask(op, Fetched(dep)), reply));
    NothingPolls(op);
    PollsSnoc(op, [], t[0]);
    assert [] + [t[0]] == t;
    hide Polls;
    hide Stamp;
  }

  lemma MarkArranging(op: Op, base: Deployment, listing: seq<ReplicaSet>, t: Trace, reply: Reply)
    requires Behind(op, Arranging(base, listing), t) && Fits(Sort(listing), reply)
    ensures AddsMark(op, t, Exchange(Sort(listing), reply), Lines(op, Arranging(base, listing), reply))
  {
    hide Select;
    hide IsSorting;
    var x := Exchange(Sort(listing), reply);
    PollsSnoc(op, t, x);
    assert (t + [x])[0].reply.dep == base && (t + [x])[2] == x;
    hide Polls;
    match Select(op.revision, base, reply.order)
    case Refused(_) =>
    case Chosen(target) =>
      assert forall name :: TargetNamed(op, t + [x], name) <==> target.name == name;
  }

  lemma MarkRetrying(op: Op, n: nat, target: ReplicaSet, dep: Deployment, t: Trace, reply: Reply)
    requires WellPlaced(op, Retrying(n, target, dep)) && Behind(op, Retrying(n, target, dep), t)
    requires reply.Updated? || reply.Error?
    ensures AddsMark(op, t, Exchange(Ask(op, Retrying(n, target, dep)), reply),
                     Lines(op, Retrying(n, target, dep), reply))
  {
    hide Select;
    hide TellsConflict;
    hide IsConflict;
    PollsSnoc(op, t, Exchange(Ask(op, Retrying(n, target, dep)), reply));
    if reply.Error? {
      ConflictMeaning(reply.message);
    }
    hide Polls;
  }

  lemma MarkStep(op: Op, at: Place, t: Trace, reply: Reply)
    requires WellPlaced(op, at) && !at.Done? && Fits(Ask(op, at), reply) && Behind(op, at, t)
    ensures AddsMark(op, t, Exchange(Ask(op, at), reply), Lines(op, at, reply))
  {
    hide AddsMark;
    hide Lines;
    hide Polls;
    if at.Begin? {
      MarkBegin(op, reply);
    } else if at.Fetched? {
      MarkFetched(op, at.dep, t, reply);
    } else if at.Arranging? {
      MarkArranging(op, at.base, at.listing, t, reply);
    } else if at.Retrying? {
      MarkRetrying(op, at.n, at.target, at.dep, t, reply);
    } else {
      MarkQuietly(op, at, t, reply);
      UnmarkedAdds(op, t, Exchange(Ask(op, at), reply), Lines(op, at, reply));
    }
  }

  lemma CountsJoin(op: Op, t: Trace, x: Exchange, lines: seq<Line>, added: seq<Line>)
    requires Readings(lines) == PollReads(op, t) && multiset(lines)[Conflict] == ConflictCount(op, t)
    requires AddsReading(op, t, x, added) && AddsConflict(op, x, added)
    ensures Readings(lines + added) == PollReads(op, t + [x])
    ensures multiset(lines + added)[Conflict] == ConflictCount(op, t + [x])
  {
    hide Polls;
    hide Conflicts;
    ReadingsConcat(lines, added);
    assert (t + [x])[..|t|] == t;
  }

  lemma MarksJoin(op: Op, t: Trace, x: Exchange, lines: seq<Line>, added: seq<Line>)
    requires MarksAreLogged(op, t, lines) && AddsMark(op, t, x, added)
    ensures MarksAreLogged(op, t + [x], lines + added)
  {
    PollsSnoc(op, t, x);
    hide Polls;
    hide Select;
    forall name
      ensures TargetNamed(op, t + [x], name)
              <==> TargetNamed(op, t, name) || (|t| == 2 && TargetNamed(op, t + [x], name))
    {
      assert |t| > 2 ==> (t + [x])[0] == t[0] && (t + [x])[2] == t[2];
    }
    hide TargetNamed;
  }

  /** What an exchange adds to the stages. */
  ghost predicate AddsStage(op: Op, t: Trace, x: Exchange, added: seq<Line>) {
    && (Fetching in added <==> op.Rollback? && t == [])
    && (SelectorFetching in added <==> op.Rollback? && t == [] && x.reply.Got?)
    && (Selector in added <==> op.Rollback? && t == [] && x.reply.Got? && x.reply.dep.selectorOk)
    && (ListingSets in added <==> op.Rollback? && t == [] && x.reply.Got? && x.reply.dep.selectorOk)
    && (forall n :: SetsFound(n) in added <==> op.Rollback? && |t| == 1 && x.reply.Listed? && n == |x.reply.sets|)
    && (forall i: nat, name :: SetLine(i, name) in added <==>
          op.Rollback? && |t| == 1 && x.reply.Listed? && i < |x.reply.sets| && x.reply.sets[i].name == name)
    && (Applying in added <==> |t| == 2 && ChoseTarget(op, t + [x]))
  }

  lemma StagesJoin(op: Op, t: Trace, x: Exchange, lines: seq<Line>, added: seq<Line>)
    requires StagesAreLogged(op, t, lines) && AddsStage(op, t, x, added)
    ensures StagesAreLogged(op, t + [x], lines + added)
  {
    hide Select;
    var t' := t + [x];
    assert t != [] ==> t'[0] == t[0];
    assert |t| > 1 ==> t'[1] == t[1];
    assert |t| > 2 ==> t'[2] == t[2];
    assert ChoseTarget(op, t') <==> ChoseTarget(op, t) || (|t| == 2 && ChoseTarget(op, t'));
    hide ChoseTarget;
  }

  lemma {:induction false} SetLinesMembers(sets: seq<ReplicaSet>, n: nat, i: nat, name: string)
    requires n <= |sets|
    ensures SetLine(i, name) in SetLines(sets, n) <==> i < n && sets[i].name == name
  {
    if n > 0 {
      SetLinesMembers(sets, n - 1, i, name);
    }
  }

  lemma StageBegin(op: Op, reply: Reply)
    requires Fits(Get, reply)
    ensures AddsStage(op, [], Exchange(Get, reply), Lines(op, Begin, reply))
  {
    hide Select;
  }

  lemma StageListing(op: Op, base: Deployment, t: Trace, reply: Reply)
    requires Behind(op, Listing(base), t) && Fits(List, reply)
    ensures AddsStage(op, t, Exchange(List, reply), Lines(op, Listing(base), reply))
  {
    hide Select;
    hide SetLines;
    if reply.Listed? {
      SetLinesOnly(reply.sets, |reply.sets|);
      forall i: nat, name
        ensures SetLine(i, name) in SetLines(reply.sets, |reply.sets|) <==>
                i < |reply.sets| && reply.sets[i].name == name
      {
        SetLinesMembers(reply.sets, |reply.sets|, i, name);
      }
    }
  }

  lemma StageArranging(op: Op, base: Deployment, listing: seq<ReplicaSet>, t: Trace, reply: Reply)
    requires Behind(op, Arranging(base, listing), t) && Fits(Sort(listing), reply)
    ensures AddsStage(op, t, Exchange(Sort(listing), reply), Lines(op, Arranging(base, listing), reply))
  {
    hide Select;
    hide IsSorting;
    hide Polls;
    var x := Exchange(Sort(listing), reply);
    assert (t + [x])[0].reply.dep == base && (t + [x])[2] == x;
  }

  predicate Staged(line: Line) {
    || line.Fetching? || line.SelectorFetching? || line.Selector? || line.ListingSets? || line.SetsFound?
    || line.SetLine? || line.Applying?
  }

  /** Behind the choice of the target, and in the other operations, no line is of these kinds. */
  lemma StageOver(op: Op, at: Place, t: Trace, reply: Reply)
    requires WellPlaced(op, at) && !at.Done? && Fits(Ask(op, at), reply) && Behind(op, at, t)
    requires !at.Begin? && !at.Listing? && !at.Arranging?
    ensures (op.Rollback? ==> |t| > 2) && t != []
    ensures forall line :: line in Lines(op, at, reply) ==> !Staged(line)
  {
    hide Ready;
    hide Select;
    hide Polls;
  }

  lemma NoStage(op: Op, t: Trace, x: Exchange, added: seq<Line>)
    requires (op.Rollback? ==> |t| > 2) && t != [] && forall line :: line in added ==> !Staged(line)
    ensures AddsStage(op, t, x, added)
  {
    hide Select;
  }

  lemma StageStep(op: Op, at: Place, t: Trace, reply: Reply)
    requires WellPlaced(op, at) && !at.Done? && Fits(Ask(op, at), reply) && Behind(op, at, t)
    ensures AddsStage(op, t, Exchange(Ask(op, at), reply), Lines(op, at, reply))
  {
    hide AddsStage;
    hide Lines;
    hide Polls;
    if at.Begin? {
      StageBegin(op, reply);
    } else if at.Listing? {
      StageListing(op, at.base, t, reply);
    } else if at.Arranging? {
      StageArranging(op, at.base, at.listing, t, reply);
    } else {
      StageOver(op, at, t, reply);
      NoStage(op, t, Exchange(Ask(op, at), reply), Lines(op, at, reply));
    }
  }

  lemma ProgressStep(op: Op, at: Place, t: Trace, reply: Reply, lines: seq<Line>)
    requires WellPlaced(op, at) && !at.Done? && Fits(Ask(op, at), reply) && Behind(op, at, t)
    requires ProgressIsLogged(op, t, lines)
    ensures ProgressIsLogged(op, t + [Exchange(Ask(op, at), reply)], lines + Lines(op, at, reply))
  {
    hide AddsMark;
    hide AddsReading;
    hide AddsConflict;
    hide Lines;
    hide Polls;
    hide MarksAreLogged;
    hide StagesAreLogged;
    hide AddsStage;
    var x, added := Exchange(Ask(op, at), reply), Lines(op, at, reply);
    ReadingStep(op, at, t, reply);
    ConflictStep(op, at, reply);
    MarkStep(op, at, t, reply);
    CountsJoin(op, t, x, lines, added);
    MarksJoin(op, t, x, lines, added);
    StageStep(op, at, t, reply);
    StagesJoin(op, t, x, lines, added);
  }
}
