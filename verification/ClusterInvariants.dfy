/** What every step of the cluster keeps. */
module ClusterInvariants {
  import opened Wrappers
  import opened KubeObjects
  import opened Sorting
  import opened Revisions
  import opened Operations
  import opened Cluster

  // ---------- the stored versions ----------

  /** The status of version i was computed from version basis: its observedGeneration is that version's generation. */
  predicate BasisOk(vs: seq<Version>, i: nat)
    requires i < |vs|
  {
    var observed := vs[i].dep.status.observedGeneration;
    match vs[i].basis
    case None => observed < vs[0].dep.generation
    case Some(b) => b <= i && observed == vs[b].dep.generation
  }

  /** How a stored version relates to every later one. */
  predicate Precedes(a: Version, b: Version) {
    && a.dep.resourceVersion < b.dep.resourceVersion
    && a.dep.generation <= b.dep.generation
    && a.dep.status.observedGeneration <= b.dep.status.observedGeneration
    && a.applied <= b.applied
    && (a.dep.generation == b.dep.generation ==> a.dep.spec == b.dep.spec)
  }

  ghost predicate HistoryOk(vs: seq<Version>) {
    && (forall i, j :: 0 <= i < j < |vs| ==> Precedes(vs[i], vs[j]))
    && (forall i :: 0 <= i < |vs| ==> BasisOk(vs, i))
  }

  /** The controller's cache is not older than the version the current status was computed from. */
  ghost predicate CacheOk(s: System) {
    s.seen < |s.versions| && (Last(s).basis.Some? ==> Last(s).basis.value <= s.seen)
  }

  // ---------- the commits ----------

  function Start(vs: seq<Version>): Desired
    requires vs != []
  { DesiredOf(vs[0].dep) }

  /** A commit that changed the spec made a version of its own, with a new generation. */
  ghost predicate CommitOk(vs: seq<Version>, cs: seq<Commit>, k: nat)
    requires vs != [] && k < |cs|
  {
    var c := cs[k];
    && c.index < |vs|
    && (c.changed <==> Fold(Start(vs), cs[..k + 1]).spec != Fold(Start(vs), cs[..k]).spec)
    && (c.changed ==>
          && c.index > 0
          && vs[c.index - 1].dep.generation < vs[c.index].dep.generation
          && vs[c.index - 1].applied <= k < vs[c.index].applied)
  }

  /** Version i holds exactly the first applied edits, in commit order. */
  ghost predicate VersionIsFold(vs: seq<Version>, cs: seq<Commit>, i: nat)
    requires i < |vs|
  {
    vs[i].applied <= |cs| && DesiredOf(vs[i].dep) == Fold(Start(vs), cs[..vs[i].applied])
  }

  ghost predicate CommitsOk(vs: seq<Version>, cs: seq<Commit>) {
    && vs != []
    && DesiredOf(vs[|vs| - 1].dep) == Fold(Start(vs), cs)
    && (forall i :: 0 <= i < |vs| ==> VersionIsFold(vs, cs, i))
    && (forall k :: 0 <= k < |cs| ==> CommitOk(vs, cs, k))
  }

  // ---------- the runs ----------

  /** All five attempts of the rollback loop ended in a conflict. */
  predicate GaveUp(run: Run) { run.attempts == MAX_ATTEMPTS && run.conflicts == MAX_ATTEMPTS }

  /** The target is what the selection yields for the deployment and the order the run has seen. */
  predicate Picks(run: Run, target: ReplicaSet) {
    && run.op.Rollback? && run.picked.Some?
    && Select(run.op.revision, run.picked.value.base, run.picked.value.order) == Chosen(target)
    && IsSorting(Newer, run.picked.value.order, run.picked.value.listing)
  }

  /** The edit is the run's own. */
  ghost predicate IsOwnEdit(run: Run, edit: Edit) {
    match run.op
    case Scale(n) => edit == ReplicasEdit(n)
    case Restart(stamp) => edit == StampEdit(stamp)
    case Rollback(_) => exists target :: Picks(run, target) && edit == TemplateEdit(target.template)
  }

  /** Errors that can only be returned from the poll. */
  predicate IsPollFailure(why: Failure) { why.PollFailed? || why.ContextEnded? }

  ghost predicate PlaceOk(run: Run) {
    && WellPlaced(run.op, run.at)
    && run.attempts <= MAX_ATTEMPTS
    && (!run.op.Rollback? ==> run.attempts == 0 && run.conflicts == 0)
    && |run.trace| + Remaining(run.at, run.ticks) <= 2 * run.granted + 15
    && (run.commit.Some? ==> run.conflicts < MAX_ATTEMPTS
                             && run.attempts == if run.op.Rollback? then run.conflicts + 1 else 0)
    && match run.at
       case Begin | Fetched(_) | Listing(_) | Arranging(_, _) =>
         run.commit.None? && run.attempts == 0 && run.conflicts == 0
       case Attempt(n, target) =>
         run.commit.None? && run.attempts == n && run.conflicts == n && Picks(run, target)
       case Retrying(n, target, _) =>
         run.commit.None? && run.attempts == n + 1 && run.conflicts == n && Picks(run, target)
       case Polling | Waiting | Done(Success) => run.commit.Some? || GaveUp(run)
       case Done(Failed(why)) => if IsPollFailure(why) then run.commit.Some? || GaveUp(run) else run.commit.None?
  }

  /** What a run holds or has read is a stored version; a successful poll came after the run's own commit. */
  ghost predicate ReadsOk(vs: seq<Version>, cs: seq<Commit>, run: Run) {
    && (run.at.Fetched? || run.at.Retrying? ==> run.read < |vs| && run.at.dep == vs[run.read].dep)
    && (run.at == Done(Success) ==>
          && run.read < |vs|
          && Ready(run.op, vs[run.read].dep)
          && (run.commit.Some? && run.commit.value < |cs| ==> cs[run.commit.value].index <= run.read))
  }

  /** A run's commit is the only one in its name, and is its own edit. */
  ghost predicate OwnsOk(cs: seq<Commit>, id: RunId, run: Run) {
    && (run.commit.Some? ==>
          && run.commit.value < |cs|
          && cs[run.commit.value].author == Some(id)
          && IsOwnEdit(run, cs[run.commit.value].edit))
    && (forall k :: 0 <= k < |cs| && cs[k].author == Some(id) ==> run.commit == Some(k))
  }

  ghost predicate RunOk(vs: seq<Version>, cs: seq<Commit>, id: RunId, run: Run) {
    PlaceOk(run) && ReadsOk(vs, cs, run) && OwnsOk(cs, id, run)
  }

  ghost predicate RunsOk(s: System) {
    && (forall id :: id in s.runs ==> RunOk(s.versions, s.commits, id, s.runs[id]))
    && (forall k :: 0 <= k < |s.commits| && s.commits[k].author.Some? ==> s.commits[k].author.value in s.runs)
  }

  ghost predicate Inv(s: System) {
    HistoryOk(s.versions) && CommitsOk(s.versions, s.commits) && CacheOk(s) && RunsOk(s)
  }

  // ---------- the server's part ----------

  lemma FoldSnoc(d: Desired, commits: seq<Commit>, c: Commit)
    ensures Fold(d, commits + [c]) == Apply(c.edit, Fold(d, commits))
  {
    assert (commits + [c])[..|commits|] == commits;
  }

  lemma AppendVersion(vs: seq<Version>, v: Version)
    requires vs != [] && HistoryOk(vs) && Precedes(vs[|vs| - 1], v)
    requires BasisOk(vs + [v], |vs|)
    ensures HistoryOk(vs + [v])
  {
    forall i, j | 0 <= i < j < |vs + [v]| ensures Precedes((vs + [v])[i], (vs + [v])[j]) {
      if j == |vs| && i < |vs| - 1 {
        assert Precedes(vs[i], vs[|vs| - 1]);
      }
    }
    forall i | 0 <= i < |vs + [v]| ensures BasisOk(vs + [v], i) {
      if i < |vs| { assert BasisOk(vs, i); }
    }
  }

  lemma OldCommitsStay(vs: seq<Version>, cs: seq<Commit>, vs': seq<Version>, cs': seq<Commit>)
    requires CommitsOk(vs, cs) && vs <= vs' && cs <= cs'
    ensures forall i :: 0 <= i < |vs| ==> VersionIsFold(vs', cs', i)
    ensures forall k :: 0 <= k < |cs| ==> CommitOk(vs', cs', k)
  {
    forall i | 0 <= i < |vs| ensures VersionIsFold(vs', cs', i) {
      assert VersionIsFold(vs, cs, i);
      assert cs'[..vs[i].applied] == cs[..vs[i].applied];
    }
    forall k | 0 <= k < |cs| ensures CommitOk(vs', cs', k) {
      assert CommitOk(vs, cs, k);
      assert cs'[..k] == cs[..k] && cs'[..k + 1] == cs[..k + 1];
    }
  }

  /** A commit that stores no new version leaves everything desired as it is. */
  lemma AppendSilentCommit(vs: seq<Version>, cs: seq<Commit>, c: Commit)
    requires CommitsOk(vs, cs) && c.index == |vs| - 1 && !c.changed
    requires Apply(c.edit, DesiredOf(vs[|vs| - 1].dep)) == DesiredOf(vs[|vs| - 1].dep)
    ensures CommitsOk(vs, cs + [c])
  {
    FoldSnoc(Start(vs), cs, c);
    OldCommitsStay(vs, cs, vs, cs + [c]);
    assert (cs + [c])[..|cs|] == cs && (cs + [c])[..|cs| + 1] == cs + [c];
    assert CommitOk(vs, cs + [c], |cs|);
  }

  lemma AppendStoringCommit(vs: seq<Version>, cs: seq<Commit>, c: Commit, v: Version)
    requires CommitsOk(vs, cs) && c.index == |vs| && v.applied == |cs| + 1
    requires DesiredOf(v.dep) == Apply(c.edit, DesiredOf(vs[|vs| - 1].dep))
    requires c.changed <==> v.dep.spec != vs[|vs| - 1].dep.spec
    requires c.changed ==> vs[|vs| - 1].dep.generation < v.dep.generation
    ensures CommitsOk(vs + [v], cs + [c])
  {
    FoldSnoc(Start(vs), cs, c);
    OldCommitsStay(vs, cs, vs + [v], cs + [c]);
    assert VersionIsFold(vs, cs, |vs| - 1);
    assert (cs + [c])[..|cs|] == cs && (cs + [c])[..|cs| + 1] == cs + [c];
    assert CommitOk(vs + [v], cs + [c], |cs|);
    assert VersionIsFold(vs + [v], cs + [c], |vs|);
  }

  lemma AppendStatus(vs: seq<Version>, cs: seq<Commit>, v: Version)
    requires CommitsOk(vs, cs) && v.applied == |cs| && DesiredOf(v.dep) == DesiredOf(vs[|vs| - 1].dep)
    ensures CommitsOk(vs + [v], cs)
  {
    OldCommitsStay(vs, cs, vs + [v], cs);
    assert cs[..|cs|] == cs;
    assert VersionIsFold(vs + [v], cs, |vs|);
  }

  /** The write stores the result of applying the edit to what is stored. */
  predicate IsAtomic(s: System, edit: Edit, desired: Desired)
    requires s.versions != []
  { desired == Apply(edit, DesiredOf(Last(s).dep)) }

  lemma WriteKeepsServer(s: System, author: Option<RunId>, edit: Edit, desired: Desired)
    requires HistoryOk(s.versions) && CommitsOk(s.versions, s.commits) && CacheOk(s)
    requires IsAtomic(s, edit, desired)
    ensures var s' := Write(s, author, edit, desired);
            HistoryOk(s'.versions) && CommitsOk(s'.versions, s'.commits) && CacheOk(s')
  {
    hide Fold;
    hide Apply;
    var s' := Write(s, author, edit, desired);
    var vs, cs := s.versions, s.commits;
    if desired == DesiredOf(Last(s).dep) {
      AppendSilentCommit(vs, cs, s'.commits[|cs|]);
    } else {
      assert VersionIsFold(vs, cs, |vs| - 1) && BasisOk(vs, |vs| - 1);
      AppendStoringCommit(vs, cs, s'.commits[|cs|], s'.versions[|vs|]);
      AppendVersion(vs, s'.versions[|vs|]);
    }
  }

  /** The controller's cache only moves forward, so a new report observes no older generation than the last. */
  lemma ReportKeepsServer(s: System, counts: Status)
    requires HistoryOk(s.versions) && CommitsOk(s.versions, s.commits) && CacheOk(s)
    ensures var s' := Step(s, ControllerReport(counts));
            HistoryOk(s'.versions) && CommitsOk(s'.versions, s'.commits) && CacheOk(s')
  {
    var vs, cs, b := s.versions, s.commits, Last(s).basis;
    if Step(s, ControllerReport(counts)) == s {
      return;
    }
    var v := Last(Step(s, ControllerReport(counts)));
    assert VersionIsFold(vs, cs, |vs| - 1) && BasisOk(vs, |vs| - 1);
    assert s.seen == 0 || Precedes(vs[0], vs[s.seen]);
    assert b.None? || b.value == s.seen || Precedes(vs[b.value], vs[s.seen]);
    AppendVersion(vs, v);
    AppendStatus(vs, cs, v);
  }

  // ---------- the runs' part ----------

  /** What a run has recorded stays true while versions, and commits of others, are added. */
  lemma RunStays(vs: seq<Version>, cs: seq<Commit>, vs': seq<Version>, cs': seq<Commit>, id: RunId, run: Run)
    requires RunOk(vs, cs, id, run) && vs <= vs' && cs <= cs'
    requires forall k :: |cs| <= k < |cs'| ==> cs'[k].author != Some(id)
    ensures RunOk(vs', cs', id, run)
  {
  }

  lemma RunsStay(s: System, s': System, but: Option<RunId>)
    requires RunsOk(s) && s.versions <= s'.versions && s.commits <= s'.commits
    requires forall k :: |s.commits| <= k < |s'.commits| ==> s'.commits[k].author == but
    requires forall id :: id in s.runs ==> id in s'.runs && (Some(id) != but ==> s'.runs[id] == s.runs[id])
    requires forall id :: id in s'.runs && id !in s.runs ==>
               RunOk(s'.versions, s'.commits, id, s'.runs[id])
    requires but.Some? ==> but.value in s'.runs && RunOk(s'.versions, s'.commits, but.value, s'.runs[but.value])
    ensures RunsOk(s')
  {
    forall id | id in s'.runs ensures RunOk(s'.versions, s'.commits, id, s'.runs[id]) {
      if id in s.runs && Some(id) != but {
        RunStays(s.versions, s.commits, s'.versions, s'.commits, id, s.runs[id]);
      }
    }
  }

  /** The version a run holds is the current one exactly when the resource versions agree, so the whole-object write
      it sends is its own edit of what is stored. */
  lemma SentIsOwnEdit(s: System, run: Run)
    requires HistoryOk(s.versions) && s.versions != [] && PlaceOk(run) && ReadsOk(s.versions, s.commits, run)
    requires run.at.Fetched? || run.at.Retrying?
    requires run.at.dep.resourceVersion == Last(s).dep.resourceVersion
    ensures IsAtomic(s, OwnEdit(run), DesiredOf(Ask(run.op, run.at).dep))
    ensures IsOwnEdit(run, OwnEdit(run))
  {
    assert run.read == |s.versions| - 1 || Precedes(s.versions[run.read], Last(s));
  }

  lemma NextKeepsPlace(s: System, run: Run, reply: Reply)
    requires s.versions != [] && PlaceOk(run) && !run.at.Done?
    requires Fits(Ask(run.op, run.at), reply) && (reply.Tick? ==> run.ticks > 0)
    ensures PlaceOk(NextRun(s, run, Ask(run.op, run.at), reply))
  {
    var next := NextRun(s, run, Ask(run.op, run.at), reply);
    match run.at
    case Retrying(n, target, _) => assert Picks(next, target);
    case Attempt(n, target) => assert Picks(next, target);
    case _ =>
  }

  /** Moving on does not disown a commit. */
  lemma StillOwnEdit(s: System, run: Run, reply: Reply, edit: Edit)
    requires s.versions != [] && PlaceOk(run) && !run.at.Done?
    requires Fits(Ask(run.op, run.at), reply)
    requires IsOwnEdit(run, edit) && (run.op.Rollback? ==> !run.at.Arranging?)
    ensures IsOwnEdit(NextRun(s, run, Ask(run.op, run.at), reply), edit)
  {
    if run.op.Rollback? {
      var target :| Picks(run, target) && edit == TemplateEdit(target.template);
      assert Picks(NextRun(s, run, Ask(run.op, run.at), reply), target);
    }
  }

  lemma NextKeepsReads(s: System, run: Run, reply: Reply)
    requires CommitsOk(s.versions, s.commits) && PlaceOk(run) && ReadsOk(s.versions, s.commits, run) && !run.at.Done?
    requires Fits(Ask(run.op, run.at), reply) && !reply.Updated? && (reply.Got? ==> reply.dep == Last(s).dep)
    ensures ReadsOk(s.versions, s.commits, NextRun(s, run, Ask(run.op, run.at), reply))
  {
    if run.commit.Some? && run.commit.value < |s.commits| {
      assert CommitOk(s.versions, s.commits, run.commit.value);
    }
  }

  lemma QuietCallKeepsRun(s: System, id: RunId, choice: Choice)
    requires Inv(s) && Enabled(s, id, choice)
    requires !Answer(s, s.runs[id], Ask(s.runs[id].op, s.runs[id].at), choice).Updated?
    ensures var s' := CallStep(s, id, choice); RunOk(s'.versions, s'.commits, id, s'.runs[id])
  {
    var run := s.runs[id];
    var reply := Answer(s, run, Ask(run.op, run.at), choice);
    assert RunOk(s.versions, s.commits, id, run);
    NextKeepsPlace(s, run, reply);
    NextKeepsReads(s, run, reply);
    if run.commit.Some? {
      StillOwnEdit(s, run, reply, s.commits[run.commit.value].edit);
    }
  }

  lemma CommitKeepsRun(s: System, id: RunId, choice: Choice)
    requires Inv(s) && Enabled(s, id, choice)
    requires Answer(s, s.runs[id], Ask(s.runs[id].op, s.runs[id].at), choice).Updated?
    ensures var s' := CallStep(s, id, choice); RunOk(s'.versions, s'.commits, id, s'.runs[id])
  {
    hide Lines;
    hide Select;
    hide HistoryOk;
    hide CommitsOk;
    var run := s.runs[id];
    assert RunOk(s.versions, s.commits, id, run);
    SentIsOwnEdit(s, run);
    NextKeepsPlace(s, run, Updated);
    StillOwnEdit(s, run, Updated, OwnEdit(run));
  }

  /** What the server looks like after a call is decided by the reply alone. */
  lemma ServerAfterCall(s: System, id: RunId, choice: Choice)
    requires Enabled(s, id, choice)
    ensures var s', run := CallStep(s, id, choice), s.runs[id];
            var request := Ask(run.op, run.at);
            if Answer(s, run, request, choice).Updated? then
              && (run.at.Fetched? || run.at.Retrying?)
              && request.Update? && request.dep == Ask(run.op, run.at).dep
              && run.at.dep.resourceVersion == Last(s).dep.resourceVersion
              && s'.(runs := s.runs) == Write(s, Some(id), OwnEdit(run), DesiredOf(request.dep)).(runs := s.runs)
            else s'.(runs := s.runs) == s
  {
    hide NextRun;
    hide Write;
  }

  lemma CallKeepsServer(s: System, id: RunId, choice: Choice)
    requires HistoryOk(s.versions) && CommitsOk(s.versions, s.commits) && CacheOk(s)
    requires Enabled(s, id, choice) && RunOk(s.versions, s.commits, id, s.runs[id])
    ensures var s' := CallStep(s, id, choice);
            HistoryOk(s'.versions) && CommitsOk(s'.versions, s'.commits) && CacheOk(s')
  {
    hide CallStep;
    hide Write;
    hide HistoryOk;
    hide CommitsOk;
    hide PlaceOk;
    hide ReadsOk;
    hide OwnsOk;
    hide IsOwnEdit;
    hide IsAtomic;
    hide Answer;
    var run := s.runs[id];
    var request := Ask(run.op, run.at);
    ServerAfterCall(s, id, choice);
    if Answer(s, run, request, choice).Updated? {
      SentIsOwnEdit(s, run);
      WriteKeepsServer(s, Some(id), OwnEdit(run), DesiredOf(request.dep));
    }
  }

  /** What a call leaves alone. */
  lemma CallFrame(s: System, id: RunId, choice: Choice)
    requires Enabled(s, id, choice)
    ensures var s' := CallStep(s, id, choice);
            && s.versions <= s'.versions && s.commits <= s'.commits
            && (forall k :: |s.commits| <= k < |s'.commits| ==> s'.commits[k].author == Some(id))
            && s'.runs.Keys == s.runs.Keys
            && forall other :: other in s.runs && other != id ==> s'.runs[other] == s.runs[other]
  {
  }

  lemma CallKeepsInv(s: System, id: RunId, choice: Choice)
    requires Inv(s) && Enabled(s, id, choice)
    ensures Inv(CallStep(s, id, choice))
  {
    assert RunOk(s.versions, s.commits, id, s.runs[id]);
    CallKeepsServer(s, id, choice);
    CallFrame(s, id, choice);
    if Answer(s, s.runs[id], Ask(s.runs[id].op, s.runs[id].at), choice).Updated? {
      CommitKeepsRun(s, id, choice);
    } else {
      QuietCallKeepsRun(s, id, choice);
    }
    RunsStay(s, CallStep(s, id, choice), Some(id));
  }

  lemma NewRunOk(s: System, id: RunId, op: Op, ticks: nat)
    requires RunsOk(s)
    ensures id !in s.runs ==> RunOk(s.versions, s.commits, id, NewRun(op, ticks))
  {
  }

  lemma StepKeepsInv(s: System, e: Event)
    requires Inv(s)
    ensures Inv(Step(s, e))
  {
    hide CallStep;
    hide RunOk;
    hide HistoryOk;
    hide CommitsOk;
    var s' := Step(s, e);
    match e
    case Spawn(id, op, ticks) =>
      NewRunOk(s, id, op, ticks);
      RunsStay(s, s', None);
    case Call(id, choice) =>
      if Enabled(s, id, choice) {
        CallKeepsInv(s, id, choice);
      }
    case OutsideWrite(desired) =>
      WriteKeepsServer(s, None, OutsideEdit(desired), desired);
      RunsStay(s, s', None);
    case ControllerSync => RunsStay(s, s', None);
    case ControllerReport(counts) =>
      ReportKeepsServer(s, counts);
      RunsStay(s, s', None);
  }

  lemma InitialInv(s: System)
    requires Initial(s)
    ensures Inv(s)
  {
    assert BasisOk(s.versions, 0) && VersionIsFold(s.versions, s.commits, 0);
  }

  /** The invariant holds after every interleaving. */
  lemma {:induction false} ExecInv(s: System, events: seq<Event>)
    requires Initial(s)
    ensures Inv(Exec(s, events))
  {
    if events == [] {
      InitialInv(s);
    } else {
      ExecInv(s, events[..|events| - 1]);
      StepKeepsInv(Exec(s, events[..|events| - 1]), events[|events| - 1]);
    }
  }
}
