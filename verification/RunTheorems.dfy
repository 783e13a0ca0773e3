/** What runs ask, write and return over every interleaving, told from their exchanges with the cluster. */
module RunTheorems {
  import opened Wrappers
  import opened KubeObjects
  import opened Revisions
  import opened Operations
  import opened Cluster
  import opened ClusterInvariants
  import opened ClusterTheorems
  import opened Traces
  import opened RunLogs

  ghost predicate TraceOk(run: Run) {
    && WellPlaced(run.op, run.at) && Behind(run.op, run.at, run.trace) && Tells(run.op, run.at, run.trace)
    && OutcomeIsLogged(run.op, run.at, run.lines) && ProgressIsLogged(run.op, run.trace, run.lines)
  }

  ghost predicate TracesOk(s: System) {
    forall id :: id in s.runs ==> TraceOk(s.runs[id])
  }

  lemma CallKeepsTrace(s: System, id: RunId, choice: Choice)
    requires Enabled(s, id, choice) && TraceOk(s.runs[id])
    ensures TraceOk(CallStep(s, id, choice).runs[id])
  {
    hide Behind;
    hide Tells;
    hide OutcomeIsLogged;
    hide ProgressIsLogged;
    hide Write;
    hide Advance;
    hide Lines;
    var run := s.runs[id];
    var reply := Answer(s, run, Ask(run.op, run.at), choice);
    TellsOn(run.op, run.at, run.trace, reply);
    OutcomeStep(run.op, run.at, reply, run.lines);
    ProgressStep(run.op, run.at, run.trace, reply, run.lines);
  }

  lemma StepKeepsTraces(s: System, e: Event)
    requires s.versions != [] && TracesOk(s)
    ensures TracesOk(Step(s, e))
  {
    hide CallStep;
    hide TraceOk;
    hide Write;
    match e
    case Spawn(id, op, ticks) => assert TraceOk(NewRun(op, ticks)) by { NewTraceOk(op, ticks); }
    case Call(id, choice) =>
      if Enabled(s, id, choice) {
        CallKeepsTrace(s, id, choice);
        CallFrame(s, id, choice);
      }
    case OutsideWrite(desired) => WriteKeepsRuns(s, desired);
    case _ =>
  }

  lemma NewTraceOk(op: Op, ticks: nat)
    ensures TraceOk(NewRun(op, ticks))
  {
  }

  lemma WriteKeepsRuns(s: System, desired: Desired)
    requires s.versions != []
    ensures Step(s, OutsideWrite(desired)).runs == s.runs
  {
  }

  lemma {:induction false} ExecKeepsTraces(s0: System, events: seq<Event>)
    requires Initial(s0)
    ensures TracesOk(Exec(s0, events))
  {
    hide Step;
    if events != [] {
      ExecKeepsTraces(s0, events[..|events| - 1]);
      StepKeepsTraces(Exec(s0, events[..|events| - 1]), events[|events| - 1]);
    }
  }

  /** Over every interleaving each run makes the requests its operation calls for, writes its own field only, and is
      over exactly when its last exchange is one that ends it, with the outcome that exchange explains. */
  lemma RunTells(s0: System, events: seq<Event>, id: RunId)
    requires Initial(s0) && id in Exec(s0, events).runs
    ensures var run := Exec(s0, events).runs[id]; Tells(run.op, run.at, run.trace)
  {
    ExecKeepsTraces(s0, events);
    assert TraceOk(Exec(s0, events).runs[id]);
  }

  /** And its log tells its outcome and its progress. */
  lemma LogTells(s0: System, events: seq<Event>, id: RunId)
    requires Initial(s0) && id in Exec(s0, events).runs
    ensures var run := Exec(s0, events).runs[id];
            OutcomeIsLogged(run.op, run.at, run.lines) && ProgressIsLogged(run.op, run.trace, run.lines)
  {
    ExecKeepsTraces(s0, events);
    assert TraceOk(Exec(s0, events).runs[id]);
  }

  // ---------- refusals ----------

  /** The error says this. */
  predicate Says(why: Failure, message: string) {
    || why == FetchFailed(message) || why == PollFailed(message) || why == ListFailed(message)
    || why == UpdateRefused(message)
  }

  /** A run's next exchange, if the environment resolves its call like this. */
  function NextExchange(s: System, id: RunId, c: Choice): Exchange
    requires Enabled(s, id, c)
  {
    var request := Ask(s.runs[id].op, s.runs[id].at);
    Exchange(request, Answer(s, s.runs[id], request, c))
  }

  lemma AfterCall(s0: System, events: seq<Event>, id: RunId, c: Choice)
    requires Initial(s0) && Enabled(Exec(s0, events), id, c)
    ensures var s := Exec(s0, events);
            && id in Step(s, Call(id, c)).runs
            && var run, run' := s.runs[id], Step(s, Call(id, c)).runs[id];
            && run'.op == run.op && run'.trace == run.trace + [NextExchange(s, id, c)]
            && forall o :: run'.at == Done(o) <==> Explains(run.op, run.trace, NextExchange(s, id, c), o)
  {
    hide Lines;
    hide Write;
    hide Tells;
    hide Behind;
    hide Advance;
    var s := Exec(s0, events);
    ExecKeepsTraces(s0, events);
    hide Exec;
    var run := s.runs[id];
    assert TraceOk(run);
    TellsStep(run.op, run.at, run.trace, NextExchange(s, id, c).reply);
  }

  /** From every reachable state, a call refused with a text ends the run with an error carrying that text, unless it is
      a rollback's update refused with a conflict, which does not end it; and the end of the context ends a wait. */
  lemma RefusalEndsTheRun(s0: System, events: seq<Event>, id: RunId, c: Choice)
    requires Initial(s0) && Enabled(Exec(s0, events), id, c)
    ensures var s := Exec(s0, events);
            var run', x := Step(s, Call(id, c)).runs[id], NextExchange(s, id, c);
            && (x.reply.Error? ==>
                  if Conflicts(run'.op, x) then !run'.at.Done?
                  else run'.at.Done? && run'.at.outcome.Failed? && Says(run'.at.outcome.why, x.reply.message))
            && (x.reply.Cancelled? ==> run'.at == Done(Failed(ContextEnded)))
  {
    hide Exec;
    hide Step;
    hide Polls;
    AfterCall(s0, events, id, c);
    var s := Exec(s0, events);
    var run, x := s.runs[id], NextExchange(s, id, c);
    RefusalExplains(run.op, run.trace, x);
    assert id in Step(s, Call(id, c)).runs;
    var at := Step(s, Call(id, c)).runs[id].at;
    if at.Done? {
      assert at == Done(at.outcome) && Explains(run.op, run.trace, x, at.outcome);
    }
  }

  function WhyRefused(op: Op, before: Trace, x: Exchange): Failure
    requires x.reply.Error? && Fits(x.request, x.reply)
  {
    match x.request
    case Get => if Polls(op, before) then PollFailed(x.reply.message) else FetchFailed(x.reply.message)
    case List => ListFailed(x.reply.message)
    case _ => UpdateRefused(x.reply.message)
  }

  /** Success means that nothing was refused to the run except a rollback's conflicting updates, at most five of them,
      and that its context did not end. */
  lemma SuccessWasNotRefused(s0: System, events: seq<Event>, id: RunId)
    requires Initial(s0) && id in Exec(s0, events).runs && Exec(s0, events).runs[id].at == Done(Success)
    ensures var run := Exec(s0, events).runs[id];
            && (forall x :: x in run.trace ==> (x.reply.Error? ==> Conflicts(run.op, x)) && !x.reply.Cancelled?)
            && ConflictCount(run.op, run.trace) <= 5
  {
    hide Tells;
    hide Behind;
    ExecKeepsTraces(s0, events);
    var run := Exec(s0, events).runs[id];
    hide Exec;
    assert TraceOk(run);
    assert ConflictCount(run.op, run.trace) <= 5 by { CountIsBounded(run.op, run.at, run.trace); }
    forall x | x in run.trace ensures (x.reply.Error? ==> Conflicts(run.op, x)) && !x.reply.Cancelled? {
      var k :| 0 <= k < |run.trace| && run.trace[k] == x;
      NotRefusedAt(run.op, run.trace, k);
    }
  }

  lemma CountIsBounded(op: Op, at: Place, t: Trace)
    requires Behind(op, at, t)
    ensures ConflictCount(op, t) <= 5
  {
  }

  lemma NotRefusedAt(op: Op, t: Trace, k: nat)
    requires Tells(op, Done(Success), t) && k < |t|
    ensures (t[k].reply.Error? ==> Conflicts(op, t[k])) && !t[k].reply.Cancelled?
  {
    hide Follows;
    hide Polls;
    RefusalExplains(op, t[..k], t[k]);
    if k == |t| - 1 {
      assert Explains(op, t[..k], t[k], Success);
    }
  }

  lemma RefusalExplains(op: Op, before: Trace, x: Exchange)
    requires Fits(x.request, x.reply)
    ensures x.reply.Error? && !Conflicts(op, x) ==> Explains(op, before, x, Failed(WhyRefused(op, before, x)))
    ensures x.reply.Cancelled? ==> Explains(op, before, x, Failed(ContextEnded))
  {
    hide Polls;
  }

  // ---------- the poll ----------

  /** From every reachable state in which the run polls, a served read ends it, with success, exactly when what is
      stored satisfies the operation's counts. */
  lemma PollDecides(s0: System, events: seq<Event>, id: RunId, c: Choice)
    requires Initial(s0) && Enabled(Exec(s0, events), id, c) && c.refusal.None?
    requires var run := Exec(s0, events).runs[id]; Ask(run.op, run.at).Get? && Polls(run.op, run.trace)
    ensures var s := Exec(s0, events);
            var run' := Step(s, Call(id, c)).runs[id];
            && (run'.at == Done(Success) <==> RolledOut(run'.op, Last(s).dep))
            && (run'.at.Done? ==> run'.at == Done(Success))
  {
    hide Exec;
    hide Step;
    hide RolledOut;
    AfterCall(s0, events, id, c);
    var s := Exec(s0, events);
    var x := NextExchange(s, id, c);
    assert x == Exchange(Get, Got(Last(s).dep));
    assert Explains(s.runs[id].op, s.runs[id].trace, x, Success) <==> RolledOut(s.runs[id].op, Last(s).dep);
    assert id in Step(s, Call(id, c)).runs;
    var at := Step(s, Call(id, c)).runs[id].at;
    if at.Done? {
      assert at == Done(at.outcome) && Explains(s.runs[id].op, s.runs[id].trace, x, at.outcome);
    }
  }

  /** The run's last exchange was a read of the stored version it records, which satisfies the operation's counts. */
  predicate ReadRolledOut(s: System, run: Run) {
    && run.read < |s.versions| && RolledOut(run.op, s.versions[run.read].dep)
    && run.trace != [] && run.trace[|run.trace| - 1] == Exchange(Get, Got(s.versions[run.read].dep))
  }

  lemma CallReadsRolledOut(s: System, id: RunId, choice: Choice)
    requires Enabled(s, id, choice) && CallStep(s, id, choice).runs[id].at == Done(Success)
    ensures ReadRolledOut(CallStep(s, id, choice), CallStep(s, id, choice).runs[id])
  {
    hide Lines;
    hide Write;
    hide Select;
    hide Ready;
    hide RolledOut;
    ReadyMeaning(s.runs[id].op, Last(s).dep);
  }

  lemma StepReadsRolledOut(s: System, e: Event, id: RunId)
    requires s.versions != [] && id in Step(s, e).runs && Step(s, e).runs[id].at == Done(Success)
    requires id in s.runs && s.runs[id].at == Done(Success) ==> ReadRolledOut(s, s.runs[id])
    ensures ReadRolledOut(Step(s, e), Step(s, e).runs[id])
  {
    hide CallStep;
    hide RolledOut;
    StepExtends(s, e);
    if e.Call? && Enabled(s, e.id, e.choice) {
      CallFrame(s, e.id, e.choice);
      if e.id == id {
        CallReadsRolledOut(s, id, e.choice);
      }
    }
  }

  /** Success means that the run's last read satisfies the operation's counts. */
  lemma {:induction false} SuccessIsRolledOut(s0: System, events: seq<Event>, id: RunId)
    requires Initial(s0) && id in Exec(s0, events).runs && Exec(s0, events).runs[id].at == Done(Success)
    ensures ReadRolledOut(Exec(s0, events), Exec(s0, events).runs[id])
  {
    hide Step;
    hide ReadRolledOut;
    if events != [] {
      var front := events[..|events| - 1];
      if id in Exec(s0, front).runs && Exec(s0, front).runs[id].at == Done(Success) {
        SuccessIsRolledOut(s0, front, id);
      }
      StepReadsRolledOut(Exec(s0, front), events[|events| - 1], id);
    }
  }

  // ---------- what is committed ----------

  /** What the edit of a commit does to what is stored, field by field: Scale sets the number of replicas, Rollback the
      template of the target chosen from what the run has read and listed, Restart one annotation of the template. */
  ghost predicate OwnFieldOnly(run: Run, before: Desired, after: Desired) {
    && after.annotations == before.annotations
    && match run.op
       case Scale(n) => after.spec.replicas == n && after.spec.template == before.spec.template
       case Restart(stamp) =>
         after.spec.replicas == before.spec.replicas && Stamps(before.spec.template, after.spec.template, stamp)
       case Rollback(revision) =>
         && after.spec.replicas == before.spec.replicas && run.picked.Some?
         && var chosen := Select(revision, run.picked.value.base, run.picked.value.order);
            chosen.Chosen? && after.spec.template == chosen.target.template
  }

  /** No commit of a run loses anything but what its operation replaces. */
  lemma CommitsTouchOneField(s0: System, events: seq<Event>, k: nat, id: RunId)
    requires Initial(s0) && k < |Exec(s0, events).commits| && Exec(s0, events).commits[k].author == Some(id)
    ensures var s, d := Exec(s0, events), DesiredOf(s0.versions[0].dep);
            id in s.runs && OwnFieldOnly(s.runs[id], Fold(d, s.commits[..k]), Fold(d, s.commits[..k + 1]))
  {
    hide Exec;
    hide IsOwnEdit;
    hide OwnFieldOnly;
    hide Apply;
    hide Fold;
    var s, d := Exec(s0, events), DesiredOf(s0.versions[0].dep);
    CommitIsOwn(s0, events, k, id);
    FoldStep(d, s.commits, k);
    EditTouchesOneField(s.runs[id], s.commits[k].edit, Fold(d, s.commits[..k]));
  }

  lemma CommitIsOwn(s0: System, events: seq<Event>, k: nat, id: RunId)
    requires Initial(s0) && k < |Exec(s0, events).commits| && Exec(s0, events).commits[k].author == Some(id)
    ensures var s := Exec(s0, events); id in s.runs && IsOwnEdit(s.runs[id], s.commits[k].edit)
  {
    hide Exec;
    hide IsOwnEdit;
    hide Fold;
    Linearizability(s0, events);
    assert Exec(s0, events).commits[k] in Exec(s0, events).commits;
  }

  lemma FoldStep(d: Desired, commits: seq<Commit>, k: nat)
    requires k < |commits|
    ensures Fold(d, commits[..k + 1]) == Apply(commits[k].edit, Fold(d, commits[..k]))
  {
    assert commits[..k + 1] == commits[..k] + [commits[k]];
    FoldSnoc(d, commits[..k], commits[k]);
  }

  lemma EditTouchesOneField(run: Run, edit: Edit, d: Desired)
    requires IsOwnEdit(run, edit)
    ensures OwnFieldOnly(run, d, Apply(edit, d))
  {
    hide Select;
    if run.op.Restart? {
      StampMeaning(d.spec.template, run.op.stamp);
    }
    hide Stamp;
    hide Stamps;
  }
}
