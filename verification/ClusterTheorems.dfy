/** Safety of Scale, Rollback and Restart over every interleaving of any number of runs, outside writers and the
    controller. */
module ClusterTheorems {
  import opened Decimal
  import opened Wrappers
  import opened KubeObjects
  import opened Sorting
  import opened Revisions
  import opened Operations
  import opened Cluster
  import opened ClusterInvariants
  import opened Traces

  // ---------- linearizability ----------

  lemma StepExtends(s: System, e: Event)
    requires s.versions != []
    ensures s.versions <= Step(s, e).versions && s.commits <= Step(s, e).commits
  {
  }

  lemma {:induction false} ExecExtends(s: System, events: seq<Event>)
    requires s.versions != []
    ensures s.versions <= Exec(s, events).versions && s.commits <= Exec(s, events).commits
  {
    if events != [] {
      ExecExtends(s, events[..|events| - 1]);
      StepExtends(Exec(s, events[..|events| - 1]), events[|events| - 1]);
    }
  }

  /** What is stored after any interleaving, and at any version on the way, is the starting object with the committed
      edits applied one after another in commit order; and each commit made in a run's name is that run's own edit.
      So no committed edit is lost, although every client writes back the whole object it read. */
  lemma {:induction false} Linearizability(s0: System, events: seq<Event>)
    requires Initial(s0)
    ensures var s, d := Exec(s0, events), DesiredOf(s0.versions[0].dep);
            && DesiredOf(Last(s).dep) == Fold(d, s.commits)
            && (forall v :: v in s.versions ==>
                  v.applied <= |s.commits| && DesiredOf(v.dep) == Fold(d, s.commits[..v.applied]))
            && (forall c :: c in s.commits && c.author.Some? ==>
                  c.author.value in s.runs && IsOwnEdit(s.runs[c.author.value], c.edit))
  {
    var s := Exec(s0, events);
    ExecInv(s0, events);
    ExecExtends(s0, events);
    forall v | v in s.versions
      ensures v.applied <= |s.commits|
              && DesiredOf(v.dep) == Fold(DesiredOf(s0.versions[0].dep), s.commits[..v.applied])
    {
      var i :| 0 <= i < |s.versions| && s.versions[i] == v;
      assert VersionIsFold(s.versions, s.commits, i);
    }
    forall c | c in s.commits && c.author.Some?
      ensures c.author.value in s.runs && IsOwnEdit(s.runs[c.author.value], c.edit)
    {
      var k :| 0 <= k < |s.commits| && s.commits[k] == c;
      assert RunOk(s.versions, s.commits, c.author.value, s.runs[c.author.value]);
    }
  }

  /** A step either commits one edit to what is stored at that moment, touching neither status nor selector, or leaves
      everything desired as it is. */
  predicate OneEditOrNone(s: System, s': System)
    requires s.versions != [] && s'.versions != []
  {
    if s'.commits == s.commits then DesiredOf(Last(s').dep) == DesiredOf(Last(s).dep)
    else
      && |s'.commits| == |s.commits| + 1
      && DesiredOf(Last(s').dep) == Apply(s'.commits[|s.commits|].edit, DesiredOf(Last(s).dep))
      && Last(s').dep.status == Last(s).dep.status && Last(s').dep.selectorOk == Last(s).dep.selectorOk
  }

  lemma WriteEffect(s: System, author: Option<RunId>, edit: Edit, desired: Desired, runs: map<RunId, Run>)
    requires s.versions != [] && IsAtomic(s, edit, desired)
    ensures OneEditOrNone(s, Write(s, author, edit, desired).(runs := runs))
  {
  }

  lemma CallEffect(s: System, id: RunId, choice: Choice)
    requires s.versions != [] && HistoryOk(s.versions) && Enabled(s, id, choice)
    requires RunOk(s.versions, s.commits, id, s.runs[id])
    ensures OneEditOrNone(s, CallStep(s, id, choice))
  {
    var run := s.runs[id];
    var request := Ask(run.op, run.at);
    if Answer(s, run, request, choice).Updated? {
      SentIsOwnEdit(s, run);
      hide HistoryOk;
      hide RunOk;
      hide Write;
      hide NextRun;
      hide OneEditOrNone;
      WriteEffect(s, Some(id), OwnEdit(run), DesiredOf(request.dep), CallStep(s, id, choice).runs);
    } else {
      hide HistoryOk;
      hide RunOk;
      hide NextRun;
      hide Write;
    }
  }

  lemma {:induction false} StepEffect(s0: System, events: seq<Event>, e: Event)
    requires Initial(s0)
    ensures OneEditOrNone(Exec(s0, events), Step(Exec(s0, events), e))
  {
    hide Write;
    hide CallStep;
    hide Enabled;
    hide RunOk;
    hide HistoryOk;
    hide CommitsOk;
    hide Apply;
    var s := Exec(s0, events);
    ExecInv(s0, events);
    hide Exec;
    match e
    case Call(id, choice) =>
      if Enabled(s, id, choice) {
        assert id in s.runs by { EnabledRuns(s, id, choice); }
        CallEffect(s, id, choice);
      }
    case OutsideWrite(desired) => OutsideEffect(s, desired);
    case _ =>
  }

  lemma EnabledRuns(s: System, id: RunId, choice: Choice)
    requires Enabled(s, id, choice)
    ensures id in s.runs && s.versions != []
  {
  }

  lemma OutsideEffect(s: System, desired: Desired)
    requires s.versions != []
    ensures OneEditOrNone(s, Step(s, OutsideWrite(desired)))
  {
    WriteEffect(s, None, OutsideEdit(desired), desired, s.runs);
  }

  /** How each stored version differs from the one before: an update keeps status and selector and counts a generation
      for a changed spec, a status report changes nothing but the status. */
  predicate Succeeds(a: Deployment, b: Deployment) {
    && b.resourceVersion == a.resourceVersion + 1 && b.selectorOk == a.selectorOk
    && if b.status == a.status then b.generation == (if b.spec == a.spec then a.generation else a.generation + 1)
       else b == a.(status := b.status, resourceVersion := b.resourceVersion)
  }

  /** The step stores at most one version, and it succeeds the last. */
  predicate StoresOne(s: System, s': System)
    requires s.versions != []
  {
    || s'.versions == s.versions
    || (|s'.versions| == |s.versions| + 1 && s.versions <= s'.versions && Succeeds(Last(s).dep, Last(s').dep))
  }

  lemma StepStoresOne(s: System, e: Event)
    requires s.versions != []
    ensures StoresOne(s, Step(s, e))
  {
    hide NextRun;
    hide Advance;
  }

  lemma {:induction false} VersionsSucceed(s0: System, events: seq<Event>, i: nat)
    requires Initial(s0) && i + 1 < |Exec(s0, events).versions|
    ensures var vs := Exec(s0, events).versions; Succeeds(vs[i].dep, vs[i + 1].dep)
  {
    hide Step;
    hide Succeeds;
    if events != [] {
      var s := Exec(s0, events[..|events| - 1]);
      StepStoresOne(s, events[|events| - 1]);
      if i + 1 < |s.versions| {
        VersionsSucceed(s0, events[..|events| - 1], i);
      }
    }
  }

  // ---------- one run ----------

  /** The commits made in a run's name. */
  function CommitsOf(cs: seq<Commit>, id: RunId): nat {
    if cs == [] then 0
    else CommitsOf(cs[..|cs| - 1], id) + if cs[|cs| - 1].author == Some(id) then 1 else 0
  }

  lemma {:induction false} CountCommits(cs: seq<Commit>, id: RunId, commit: Option<nat>)
    requires forall k :: 0 <= k < |cs| && cs[k].author == Some(id) ==> commit == Some(k)
    requires commit.Some? && commit.value < |cs| ==> cs[commit.value].author == Some(id)
    ensures CommitsOf(cs, id) == if commit.Some? && commit.value < |cs| then 1 else 0
  {
    if cs != [] {
      var front := cs[..|cs| - 1];
      assert forall k :: 0 <= k < |front| ==> front[k] == cs[k];
      CountCommits(front, id, commit);
    }
  }

  /** The number of commits a run has made by the time it returns. Scale and Restart commit exactly once when they
      return nil; Rollback does too unless all five attempts conflicted, and then it never commits. An error from before
      the poll means no commit. No run commits twice, and a run makes at most five update attempts. */
  lemma CommitsPerRun(s0: System, events: seq<Event>, id: RunId)
    requires Initial(s0) && id in Exec(s0, events).runs
    ensures var s := Exec(s0, events);
            var run, n := s.runs[id], CommitsOf(s.commits, id);
            && n <= 1 && run.attempts <= MAX_ATTEMPTS && (GaveUp(run) ==> run.op.Rollback? && n == 0)
            && (run.at == Done(Success) ==> n == if GaveUp(run) then 0 else 1)
            && (run.at.Done? && run.at.outcome.Failed? ==>
                  n == if IsPollFailure(run.at.outcome.why) && !GaveUp(run) then 1 else 0)
  {
    var s := Exec(s0, events);
    ExecInv(s0, events);
    assert RunOk(s.versions, s.commits, id, s.runs[id]);
    CountCommits(s.commits, id, s.runs[id].commit);
  }

  lemma SuccessHasCommitted(s0: System, events: seq<Event>, id: RunId)
    requires Initial(s0) && id in Exec(s0, events).runs && Exec(s0, events).runs[id].at == Done(Success)
    requires !GaveUp(Exec(s0, events).runs[id])
    ensures var s := Exec(s0, events);
            var commit := s.runs[id].commit;
            commit.Some? && commit.value < |s.commits| && s.commits[commit.value].author == Some(id)
  {
    ExecInv(s0, events);
    assert RunOk(Exec(s0, events).versions, Exec(s0, events).commits, id, Exec(s0, events).runs[id]);
  }

  /** The template a rollback commits is the template of the ReplicaSet selected from the deployment it read first and
      the list it was given, for whichever order the sort produced. */
  lemma RollbackCommitsTheTarget(s0: System, events: seq<Event>, c: Commit)
    requires Initial(s0)
    requires c in Exec(s0, events).commits && c.author.Some?
    requires c.author.value in Exec(s0, events).runs && Exec(s0, events).runs[c.author.value].op.Rollback?
    ensures var run := Exec(s0, events).runs[c.author.value];
            && run.picked.Some? && IsSorting(Newer, run.picked.value.order, run.picked.value.listing)
            && var chosen := Select(run.op.revision, run.picked.value.base, run.picked.value.order);
               chosen.Chosen? && chosen.target in run.picked.value.listing
               && c.edit == TemplateEdit(chosen.target.template)
  {
    Linearizability(s0, events);
    var run := Exec(s0, events).runs[c.author.value];
    var target :| Picks(run, target) && c.edit == TemplateEdit(target.template);
    PermutationMembers(run.picked.value.order, run.picked.value.listing);
  }

  /** A nil return means the last poll read a version no older than the run's own commit, and that very version
      satisfied the operation's counts. */
  lemma {:induction false} ReadAfterWrite(s0: System, events: seq<Event>, id: RunId)
    requires Initial(s0) && id in Exec(s0, events).runs && Exec(s0, events).runs[id].at == Done(Success)
    ensures var s := Exec(s0, events);
            var run := s.runs[id];
            && run.read < |s.versions| && RolledOut(run.op, s.versions[run.read].dep)
            && (run.commit.Some? ==>
                  && run.commit.value < |s.commits|
                  && s.commits[run.commit.value].index <= run.read
                  && s.versions[s.commits[run.commit.value].index].dep.resourceVersion
                     <= s.versions[run.read].dep.resourceVersion)
  {
    var s := Exec(s0, events);
    ExecInv(s0, events);
    assert RunOk(s.versions, s.commits, id, s.runs[id]);
    var run := s.runs[id];
    ReadyMeaning(run.op, s.versions[run.read].dep);
    hide Ready;
    hide RolledOut;
    if run.commit.Some? {
      assert CommitOk(s.versions, s.commits, run.commit.value);
      var c := s.commits[run.commit.value].index;
      assert c == run.read || Precedes(s.versions[c], s.versions[run.read]);
    }
  }

  /** Whatever the environment does, a run takes no more than this many steps when its context survives that many
      waits. */
  lemma StepsAreBounded(s0: System, events: seq<Event>, id: RunId)
    requires Initial(s0) && id in Exec(s0, events).runs
    ensures var run := Exec(s0, events).runs[id];
            |run.trace| <= 2 * run.granted + 15 && (|run.trace| == 2 * run.granted + 15 ==> run.at.Done?)
  {
    var s := Exec(s0, events);
    ExecInv(s0, events);
    assert RunOk(s.versions, s.commits, id, s.runs[id]);
  }

  lemma NewerIsStrictWeak()
    ensures StrictWeak(Newer)
  {
  }

  /** A run that is not over is never stuck: its next call can be resolved somehow, and then it has taken a step more.
      As its steps are bounded, every operation returns. */
  lemma NoRunIsStuck(s0: System, events: seq<Event>, id: RunId)
    requires Initial(s0) && id in Exec(s0, events).runs
    ensures var s := Exec(s0, events);
            && (s.runs[id].at.Done? || exists c :: Enabled(s, id, c))
            && forall c :: Enabled(s, id, c) ==>
                             id in Step(s, Call(id, c)).runs
                             && |Step(s, Call(id, c)).runs[id].trace| == |s.runs[id].trace| + 1
  {
    var s := Exec(s0, events);
    ExecInv(s0, events);
    assert RunOk(s.versions, s.commits, id, s.runs[id]);
    hide Inv;
    hide RunOk;
    hide Exec;
    hide Lines;
    if !s.runs[id].at.Done? {
      CallIsPossible(s, id);
    }
  }

  lemma CallIsPossible(s: System, id: RunId)
    requires s.versions != [] && id in s.runs && WellPlaced(s.runs[id].op, s.runs[id].at) && !s.runs[id].at.Done?
    ensures exists c :: Enabled(s, id, c)
  {
    if s.runs[id].at.Arranging? {
      NewerIsStrictWeak();
      var order := SortingExists(Newer, s.runs[id].at.listing);
      assert Enabled(s, id, Choice(None, [], order));
    } else {
      assert Enabled(s, id, Choice(None, [], []));
    }
  }

  // ---------- freshness of the status that reports success ----------

  /** The run has reported success after a commit. */
  predicate CommittedAndSucceeded(s: System, id: RunId) {
    id in s.runs && s.runs[id].at == Done(Success) && s.runs[id].commit.Some?
  }

  /** Where the run's commit and its last read are. */
  predicate Located(s: System, run: Run) {
    && run.read < |s.versions|
    && run.commit.Some? && run.commit.value < |s.commits| && s.commits[run.commit.value].index < |s.versions|
    && (s.versions[run.read].basis.Some? ==> s.versions[run.read].basis.value < |s.versions|)
  }

  /** The generation of the version that holds the result of the run's commit. */
  function OwnGeneration(s: System, run: Run): nat
    requires Located(s, run)
  { s.versions[s.commits[run.commit.value].index].dep.generation }

  /** The status read last was computed by the controller from the version that holds the result of the run's commit,
      from a later one, or from an earlier one of the same generation, which has the same spec. */
  predicate Reflects(s: System, run: Run)
    requires Located(s, run)
  {
    var index, basis := s.commits[run.commit.value].index, s.versions[run.read].basis;
    basis.Some? && (index <= basis.value || s.versions[basis.value].dep.generation == OwnGeneration(s, run))
  }

  /** That status was computed from a version that contains the run's own commit. */
  predicate SawOwnCommit(s: System, run: Run)
    requires Located(s, run)
  {
    var basis := s.versions[run.read].basis;
    basis.Some? && s.versions[basis.value].applied > run.commit.value
  }

  lemma SuccessIsLocated(s: System, id: RunId)
    requires Inv(s) && CommittedAndSucceeded(s, id)
    ensures Located(s, s.runs[id])
    ensures s.commits[s.runs[id].commit.value].index <= s.runs[id].read
  {
    assert RunOk(s.versions, s.commits, id, s.runs[id]);
    assert CommitOk(s.versions, s.commits, s.runs[id].commit.value);
    assert BasisOk(s.versions, s.runs[id].read);
  }

  lemma ReflectsWhenObserved(s: System, run: Run)
    requires HistoryOk(s.versions) && Located(s, run)
    ensures Reflects(s, run) <==> OwnGeneration(s, run) <= s.versions[run.read].dep.status.observedGeneration
  {
    var vs := s.versions;
    var c, basis := s.commits[run.commit.value].index, vs[run.read].basis;
    assert BasisOk(vs, run.read);
    assert c == 0 || Precedes(vs[0], vs[c]);
    if basis.Some? {
      var b := basis.value;
      assert b == c || if b < c then Precedes(vs[b], vs[c]) else Precedes(vs[c], vs[b]);
    }
  }

  lemma ChangesAreSeen(s: System, run: Run)
    requires HistoryOk(s.versions) && CommitsOk(s.versions, s.commits) && Located(s, run)
    requires s.commits[run.commit.value].changed
    ensures Reflects(s, run) <==> SawOwnCommit(s, run)
  {
    var vs, k := s.versions, run.commit.value;
    var c, basis := s.commits[k].index, vs[run.read].basis;
    assert CommitOk(vs, s.commits, k);
    if basis.Some? {
      var b := basis.value;
      if b < c {
        assert b == c - 1 || Precedes(vs[b], vs[c - 1]);
      } else {
        assert b == c || Precedes(vs[c], vs[b]);
      }
    }
  }

  /** For all three operations: the status of the successful poll reflects the run's own commit exactly when the
      observed generation it read had reached the commit's; and when the commit changed the spec, exactly when the
      status was computed from a version containing it. */
  lemma FreshExactlyWhenObserved(s0: System, events: seq<Event>, id: RunId)
    requires Initial(s0) && CommittedAndSucceeded(Exec(s0, events), id)
    ensures var s := Exec(s0, events);
            var run := s.runs[id];
            && Located(s, run)
            && (Reflects(s, run) <==> OwnGeneration(s, run) <= s.versions[run.read].dep.status.observedGeneration)
            && (s.commits[run.commit.value].changed ==> (Reflects(s, run) <==> SawOwnCommit(s, run)))
  {
    var s := Exec(s0, events);
    ExecInv(s0, events);
    SuccessIsLocated(s, id);
    ReflectsWhenObserved(s, s.runs[id]);
    if s.commits[s.runs[id].commit.value].changed {
      ChangesAreSeen(s, s.runs[id]);
    }
  }

  predicate Stamped(t: PodTemplate, stamp: string) {
    t.annotations.Some? && RESTARTED_AT in t.annotations.value && t.annotations.value[RESTARTED_AT] == stamp
  }

  lemma StampingChanges(t: PodTemplate, stamp: string)
    ensures Stamp(t, stamp) == t <==> Stamped(t, stamp)
  {
    if Stamped(t, stamp) {
      assert t.annotations.value[RESTARTED_AT := stamp] == t.annotations.value;
    } else {
      assert Stamped(Stamp(t, stamp), stamp);
    }
  }

  /** Restart compares Generation with ObservedGeneration, so the status on which it reports success always reflects its
      own commit, and has observed the spec it was read with. */
  lemma RestartObservesItsGeneration(s0: System, events: seq<Event>, id: RunId)
    requires Initial(s0) && id in Exec(s0, events).runs
    requires Exec(s0, events).runs[id].op.Restart? && Exec(s0, events).runs[id].at == Done(Success)
    ensures CommittedAndSucceeded(Exec(s0, events), id)
    ensures var s := Exec(s0, events);
            Located(s, s.runs[id]) && Reflects(s, s.runs[id]) && !StaleSuccess(s, id)
  {
    var s := Exec(s0, events);
    ExecInv(s0, events);
    var run, vs := s.runs[id], s.versions;
    assert RunOk(vs, s.commits, id, run);
    SuccessIsLocated(s, id);
    ReflectsWhenObserved(s, run);
    var c := s.commits[run.commit.value].index;
    assert c == run.read || Precedes(vs[c], vs[run.read]);
  }

  /** A restart commit with a timestamp the template does not carry yet changes the spec. */
  lemma NewStampChanges(s: System, k: nat, stamp: string)
    requires CommitsOk(s.versions, s.commits) && k < |s.commits| && s.commits[k].edit == StampEdit(stamp)
    requires !Stamped(Fold(Start(s.versions), s.commits[..k]).spec.template, stamp)
    ensures s.commits[k].changed
  {
    assert CommitOk(s.versions, s.commits, k);
    assert s.commits[..k + 1] == s.commits[..k] + [s.commits[k]];
    FoldSnoc(Start(s.versions), s.commits[..k], s.commits[k]);
    StampingChanges(Fold(Start(s.versions), s.commits[..k]).spec.template, stamp);
  }

  /** With a timestamp new to the template it was written into, that status was computed from a version containing the
      run's own commit. */
  lemma RestartIsFresh(s0: System, events: seq<Event>, id: RunId)
    requires Initial(s0) && id in Exec(s0, events).runs
    requires Exec(s0, events).runs[id].op.Restart? && Exec(s0, events).runs[id].at == Done(Success)
    requires var s := Exec(s0, events);
             s.runs[id].commit.Some? && s.runs[id].commit.value < |s.commits| &&
             !Stamped(Fold(DesiredOf(s0.versions[0].dep), s.commits[..s.runs[id].commit.value]).spec.template,
                      s.runs[id].op.stamp)
    ensures var s := Exec(s0, events); Located(s, s.runs[id]) && SawOwnCommit(s, s.runs[id])
  {
    var s := Exec(s0, events);
    ExecInv(s0, events);
    ExecExtends(s0, events);
    RestartObservesItsGeneration(s0, events, id);
    assert RunOk(s.versions, s.commits, id, s.runs[id]);
    NewStampChanges(s, s.runs[id].commit.value, s.runs[id].op.stamp);
    ChangesAreSeen(s, s.runs[id]);
  }

  // ---------- Scale and Rollback do not compare generations ----------

  /** The run reports success on a status whose controller has not yet seen the spec it was read with. */
  predicate StaleSuccess(s: System, id: RunId) {
    && id in s.runs && s.runs[id].at == Done(Success) && s.runs[id].read < |s.versions|
    && var dep := s.versions[s.runs[id].read].dep; dep.status.observedGeneration < dep.generation
  }

  /** Over every interleaving, success on a status that does not reflect the run's commit is stale; and the two are the
      same as long as nobody has changed the spec between the commit and the last read. */
  lemma UnreflectedIsStale(s0: System, events: seq<Event>, id: RunId)
    requires Initial(s0) && CommittedAndSucceeded(Exec(s0, events), id)
    ensures var s := Exec(s0, events);
            var run := s.runs[id];
            && Located(s, run)
            && (!Reflects(s, run) ==> StaleSuccess(s, id))
            && (s.versions[run.read].dep.generation == OwnGeneration(s, run) ==>
                  (StaleSuccess(s, id) <==> !Reflects(s, run)))
  {
    var s := Exec(s0, events);
    ExecInv(s0, events);
    SuccessIsLocated(s, id);
    var run := s.runs[id];
    ReflectsWhenObserved(s, run);
    var c := s.commits[run.commit.value].index;
    assert c == run.read || Precedes(s.versions[c], s.versions[run.read]);
  }

  /** A choice that serves the call: the list comes in any order, and the sort has any outcome it can have. */
  predicate Serves(c: Choice) { c.refusal.None? && IsSorting(Newer, c.order, c.listing) }

  lemma ExecSnoc(s: System, events: seq<Event>, e: Event)
    requires s.versions != []
    ensures Exec(s, events + [e]) == Step(Exec(s, events), e)
  {
    assert (events + [e])[..|events|] == events;
  }

  predicate Active(s: System, id: RunId) {
    s.versions != [] && id in s.runs && WellPlaced(s.runs[id].op, s.runs[id].at) && !s.runs[id].at.Done?
  }

  function NextPlace(s: System, id: RunId, reply: Reply): Place
    requires Active(s, id) && Fits(Ask(s.runs[id].op, s.runs[id].at), reply)
  { Advance(s.runs[id].op, s.runs[id].at, reply) }

  /** A served call that is not an update: only the run moves on. */
  lemma ServedQuietly(s: System, id: RunId, c: Choice, reply: Reply)
    requires Active(s, id) && !Ask(s.runs[id].op, s.runs[id].at).Update?
    requires reply == Answer(s, s.runs[id], Ask(s.runs[id].op, s.runs[id].at), c)
    requires Fits(Ask(s.runs[id].op, s.runs[id].at), reply)
    ensures var s', run := Step(s, Call(id, c)), s.runs[id];
            && s'.versions == s.versions && s'.commits == s.commits && s'.seen == s.seen
            && id in s'.runs && s'.runs[id].op == run.op && s'.runs[id].at == NextPlace(s, id, reply)
            && s'.runs[id].commit == run.commit
            && s'.runs[id].attempts == (if run.at.Attempt? then run.attempts + 1 else run.attempts)
            && s'.runs[id].conflicts == run.conflicts
            && (reply.Got? ==> s'.runs[id].read == |s.versions| - 1)
  {
  }

  /** A served update of the current version that changes the spec. */
  lemma ServedUpdate(s: System, id: RunId, c: Choice)
    requires c.refusal.None?
    requires Active(s, id) && (s.runs[id].at.Fetched? || s.runs[id].at.Retrying?) && s.runs[id].at.dep == Last(s).dep
    requires Ask(s.runs[id].op, s.runs[id].at).dep.spec != Last(s).dep.spec
    ensures var s', run := Step(s, Call(id, c)), s.runs[id];
            && |s'.versions| == |s.versions| + 1 && |s'.commits| == |s.commits| + 1
            && s.versions <= s'.versions
            && s'.commits[|s.commits|].changed && s'.commits[|s.commits|].index == |s.versions|
            && Last(s').dep.status == Last(s).dep.status && Last(s').dep.generation == Last(s).dep.generation + 1
            && Last(s').dep.spec == Ask(run.op, run.at).dep.spec
            && id in s'.runs && s'.runs[id].op == run.op && s'.runs[id].at == Polling
            && s'.runs[id].commit == Some(|s.commits|)
  {
  }

  /** A served update of the current version that leaves the spec as it is. */
  lemma ServedSilentUpdate(s: System, id: RunId, c: Choice)
    requires c.refusal.None?
    requires Active(s, id) && (s.runs[id].at.Fetched? || s.runs[id].at.Retrying?) && s.runs[id].at.dep == Last(s).dep
    requires Ask(s.runs[id].op, s.runs[id].at).dep.spec == Last(s).dep.spec
    ensures var s', run := Step(s, Call(id, c)), s.runs[id];
            && s'.versions == s.versions && |s'.commits| == |s.commits| + 1
            && !s'.commits[|s.commits|].changed && s'.commits[|s.commits|].index == |s.versions| - 1
            && id in s'.runs && s'.runs[id].op == run.op && s'.runs[id].at == Polling
            && s'.runs[id].commit == Some(|s.commits|)
  {
  }

  /** Since s the run has committed, and nothing else has happened. */
  predicate Committed(s: System, s': System, id: RunId, op: Op, changed: bool)
    requires s.versions != []
  {
    && s'.versions != [] && Last(s').dep.status == Last(s).dep.status
    && Last(s').dep.generation == Last(s).dep.generation + (if changed then 1 else 0)
    && (op.Rollback? ==> Last(s').dep.spec.replicas == Last(s).dep.spec.replicas)
    && id in s'.runs && s'.runs[id].op == op && s'.runs[id].commit == Some(|s.commits|)
    && |s'.commits| == |s.commits| + 1 && s'.commits[|s.commits|].index == |s'.versions| - 1
  }

  /** The run has polled, and with nothing else happening later polls see what the first one saw. */
  predicate Settled(s: System, s': System, id: RunId, op: Op, changed: bool)
    requires s.versions != []
  {
    && Committed(s, s', id, op, changed)
    && var run := s'.runs[id];
       if Ready(op, Last(s).dep) then run.at == Done(Success) && run.read == |s'.versions| - 1
       else run.at == Polling || run.at == Waiting || (run.at.Done? && run.at.outcome.Failed?)
  }

  lemma ServedCommit(s: System, id: RunId, c: Choice)
    requires c.refusal.None?
    requires Active(s, id) && (s.runs[id].at.Fetched? || s.runs[id].at.Retrying?) && s.runs[id].at.dep == Last(s).dep
    ensures var s', run := Step(s, Call(id, c)), s.runs[id];
            && Committed(s, s', id, run.op, Ask(run.op, run.at).dep.spec != Last(s).dep.spec)
            && s'.runs[id].at == Polling
  {
    hide Step;
    if Ask(s.runs[id].op, s.runs[id].at).dep.spec == Last(s).dep.spec {
      ServedSilentUpdate(s, id, c);
    } else {
      ServedUpdate(s, id, c);
    }
  }

  lemma PollSettles(s: System, s': System, id: RunId, op: Op, changed: bool, c: Choice)
    requires c.refusal.None?
    requires s.versions != [] && Committed(s, s', id, op, changed) && !op.Restart? && s'.runs[id].at == Polling
    ensures Settled(s, Step(s', Call(id, c)), id, op, changed)
  {
    ServedQuietly(s', id, c, Got(Last(s').dep));
    hide Step;
  }

  lemma StaysSettled(s: System, s': System, id: RunId, op: Op, changed: bool, c: Choice)
    requires c.refusal.None?
    requires s.versions != [] && Settled(s, s', id, op, changed) && !op.Restart?
    ensures Settled(s, Step(s', Call(id, c)), id, op, changed)
  {
    if s'.runs[id].at == Polling {
      PollSettles(s, s', id, op, changed, c);
    } else if s'.runs[id].at == Waiting {
      ServedQuietly(s', id, c, if s'.runs[id].ticks == 0 then Cancelled else Tick);
    }
  }

  /** The status the poll reads is still the one from before the commit. */
  lemma SettledIsStale(s: System, s': System, id: RunId, op: Op, changed: bool)
    requires HistoryOk(s.versions) && s.versions != [] && Settled(s, s', id, op, changed)
    ensures StaleSuccess(s', id) <==> Ready(op, Last(s).dep) && (changed || Unobserved(Last(s).dep))
  {
    hide Ready;
    ObservedAtMostGeneration(s.versions, |s.versions| - 1);
  }

  /** The controller has not yet seen the spec. */
  predicate Unobserved(dep: Deployment) { dep.status.observedGeneration < dep.generation }

  lemma ObservedAtMostGeneration(vs: seq<Version>, i: nat)
    requires HistoryOk(vs) && i < |vs|
    ensures vs[i].dep.status.observedGeneration <= vs[i].dep.generation
  {
    assert BasisOk(vs, i);
    assert i == 0 || Precedes(vs[0], vs[i]);
    var basis := vs[i].basis;
    assert basis.Some? && basis.value < i ==> Precedes(vs[basis.value], vs[i]);
  }

  /** The environment resolves m calls of the run like this, and nothing else happens. */
  function Calls(id: RunId, c: Choice, m: nat): seq<Event> {
    if m == 0 then [] else Calls(id, c, m - 1) + [Call(id, c)]
  }

  function ServeTimes(s: System, id: RunId, c: Choice, m: nat): (s': System)
    requires s.versions != []
    ensures s'.versions != []
  {
    if m == 0 then s else Step(ServeTimes(s, id, c, m - 1), Call(id, c))
  }

  lemma {:induction false} CallsAreExec(s0: System, events: seq<Event>, id: RunId, c: Choice, m: nat)
    requires s0.versions != []
    ensures Exec(s0, events + Calls(id, c, m)) == ServeTimes(Exec(s0, events), id, c, m)
  {
    hide Step;
    hide Exec;
    if m == 0 {
      assert events + [] == events;
    } else {
      CallsAreExec(s0, events, id, c, m - 1);
      ExecSnoc(s0, events + Calls(id, c, m - 1), Call(id, c));
      assert events + Calls(id, c, m) == events + Calls(id, c, m - 1) + [Call(id, c)];
    }
  }

  lemma {:induction false} SettledForGood(s: System, s1: System, id: RunId, op: Op, changed: bool,
                                          c: Choice, k: nat, m: nat)
    requires c.refusal.None?
    requires s.versions != [] && s1.versions != [] && !op.Restart? && k <= m
    requires Settled(s, ServeTimes(s1, id, c, k), id, op, changed)
    ensures Settled(s, ServeTimes(s1, id, c, m), id, op, changed)
  {
    hide Step;
    hide Settled;
    if k < m {
      SettledForGood(s, s1, id, op, changed, c, k, m - 1);
      StaysSettled(s, ServeTimes(s1, id, c, m - 1), id, op, changed, c);
    }
  }

  lemma ScaleSettles(s: System, id: RunId, n: Int32, c: Choice, ticks: nat)
    requires c.refusal.None? && Inv(s) && id !in s.runs
    ensures Settled(s, ServeTimes(Step(s, Spawn(id, Scale(n), ticks)), id, c, 3), id, Scale(n),
                    Last(s).dep.spec.replicas != n)
  {
    var call := Call(id, c);
    var s1 := Step(s, Spawn(id, Scale(n), ticks));
    ServedQuietly(s1, id, c, Got(Last(s).dep));
    var s2 := Step(s1, call);
    ServedCommit(s2, id, c);
    var s3 := Step(s2, call);
    var changed := Last(s).dep.spec.replicas != n;
    assert Committed(s, s3, id, Scale(n), changed);
    PollSettles(s, s3, id, Scale(n), changed, c);
    ServeThree(s1, id, c);
  }

  lemma ServeThree(s: System, id: RunId, c: Choice)
    requires s.versions != []
    ensures var call := Call(id, c); ServeTimes(s, id, c, 3) == Step(Step(Step(s, call), call), call)
  {
    hide Step;
    assert ServeTimes(s, id, c, 2) == Step(ServeTimes(s, id, c, 1), Call(id, c));
  }

  /** A Scale whose calls are all served, with nothing else happening meanwhile, reports a stale success exactly when n
      replicas are available beforehand but another number is asked for, or n is asked for but not yet observed; it
      does so by its third call or never. */
  lemma ScaleStaleExactly(s0: System, events: seq<Event>, id: RunId, n: Int32, ticks: nat, c: Choice, m: nat)
    requires Initial(s0) && id !in Exec(s0, events).runs && c.refusal.None? && m >= 3
    ensures var dep := Last(Exec(s0, events)).dep;
            StaleSuccess(Exec(s0, events + [Spawn(id, Scale(n), ticks)] + Calls(id, c, m)), id) <==>
            dep.status.availableReplicas == n && (dep.spec.replicas != n || Unobserved(dep))
  {
    hide Step;
    hide RunsOk;
    hide CommitsOk;
    hide HistoryOk;
    hide Settled;
    hide StaleSuccess;
    hide Calls;
    hide ServeTimes;
    var s, spawn := Exec(s0, events), Spawn(id, Scale(n), ticks);
    var changed := Last(s).dep.spec.replicas != n;
    ExecInv(s0, events);
    ExecSnoc(s0, events, spawn);
    ScaleSettles(s, id, n, c, ticks);
    SettledForGood(s, Step(s, spawn), id, Scale(n), changed, c, 3, m);
    CallsAreExec(s0, events + [spawn], id, c, m);
    SettledIsStale(s, Exec(s0, events + [spawn] + Calls(id, c, m)), id, Scale(n), changed);
  }

  /** From every such reachable state Scale to n can report success before the controller has seen what it asked for. */
  lemma ScaleCanBeStale(s0: System, events: seq<Event>, id: RunId, n: Int32)
    requires Initial(s0) && id !in Exec(s0, events).runs
    requires Last(Exec(s0, events)).dep.status.availableReplicas == n
    requires Last(Exec(s0, events)).dep.spec.replicas != n || Unobserved(Last(Exec(s0, events)).dep)
    ensures exists more :: StaleSuccess(Exec(s0, events + more), id)
  {
    hide Step;
    hide StaleSuccess;
    hide Calls;
    var spawn, c := Spawn(id, Scale(n), 0), Choice(None, [], []);
    ScaleStaleExactly(s0, events, id, n, 0, c, 3);
    assert events + ([spawn] + Calls(id, c, 3)) == events + [spawn] + Calls(id, c, 3);
  }

  /** A rollback that reads, lists and sorts without interference arrives at its first attempt. */
  lemma ReachTheLoop(s: System, id: RunId, revision: Int64, c: Choice, ticks: nat) returns (s': System)
    requires Inv(s) && id !in s.runs && Last(s).dep.selectorOk && Serves(c)
    requires Select(revision, Last(s).dep, c.order).Chosen?
    ensures s' == Step(Step(Step(Step(s, Spawn(id, Rollback(revision), ticks)), Call(id, c)), Call(id, c)),
                       Call(id, c))
    ensures s'.versions == s.versions && s'.commits == s.commits && s'.seen == s.seen
    ensures id in s'.runs && s'.runs[id].op == Rollback(revision)
    ensures s'.runs[id].at == Attempt(0, Select(revision, Last(s).dep, c.order).target)
    ensures s'.runs[id].commit.None? && s'.runs[id].attempts == 0 && s'.runs[id].conflicts == 0
  {
    hide Lines;
    hide Select;
    var s1 := Step(s, Spawn(id, Rollback(revision), ticks));
    ServedQuietly(s1, id, c, Got(Last(s).dep));
    var s2 := Step(s1, Call(id, c));
    ServedQuietly(s2, id, c, Listed(c.listing));
    var s3 := Step(s2, Call(id, c));
    ServedQuietly(s3, id, c, Sorted(c.order));
    s' := Step(s3, Call(id, c));
  }

  /** The target the selection yields for the deployment, if its selector is usable. */
  function TargetOf(revision: Int64, dep: Deployment, order: seq<ReplicaSet>): Option<ReplicaSet> {
    if !dep.selectorOk || Select(revision, dep, order).Refused? then None
    else Some(Select(revision, dep, order).target)
  }

  lemma LoopSettles(s: System, s4: System, id: RunId, op: Op, target: ReplicaSet, c: Choice)
    requires c.refusal.None?
    requires s.versions != [] && s4.versions == s.versions && s4.commits == s.commits && id in s4.runs
    requires op.Rollback? && s4.runs[id].op == op && s4.runs[id].at == Attempt(0, target)
    ensures Settled(s, ServeTimes(s4, id, c, 3), id, op, target.template != Last(s).dep.spec.template)
  {
    var call := Call(id, c);
    ServedQuietly(s4, id, c, Got(Last(s).dep));
    var s5 := Step(s4, call);
    ServedCommit(s5, id, c);
    var s6 := Step(s5, call);
    var changed := target.template != Last(s).dep.spec.template;
    assert Committed(s, s6, id, op, changed);
    PollSettles(s, s6, id, op, changed, c);
    ServeThree(s4, id, c);
  }

  /** The run has returned an error. */
  predicate HasFailed(s: System, id: RunId) {
    id in s.runs && s.runs[id].at.Done? && s.runs[id].at.outcome.Failed?
  }

  lemma ServesAdd(s: System, id: RunId, c: Choice, k: nat, m: nat)
    requires s.versions != []
    ensures ServeTimes(ServeTimes(s, id, c, k), id, c, m) == ServeTimes(s, id, c, k + m)
  {
    hide Step;
  }

  lemma {:induction false} FailedForGood(s: System, id: RunId, c: Choice, k: nat, m: nat)
    requires s.versions != [] && k <= m && HasFailed(ServeTimes(s, id, c, k), id)
    ensures HasFailed(ServeTimes(s, id, c, m), id)
  {
    if k < m {
      FailedForGood(s, id, c, k, m - 1);
    }
  }

  /** Without a usable target the run fails in its first three calls. */
  lemma TargetlessFails(s: System, id: RunId, revision: Int64, c: Choice, ticks: nat)
    requires Inv(s) && id !in s.runs && Serves(c) && TargetOf(revision, Last(s).dep, c.order).None?
    ensures HasFailed(ServeTimes(Step(s, Spawn(id, Rollback(revision), ticks)), id, c, 3), id)
  {
    hide Lines;
    hide Select;
    var s1 := Step(s, Spawn(id, Rollback(revision), ticks));
    ServedQuietly(s1, id, c, Got(Last(s).dep));
    var s2 := Step(s1, Call(id, c));
    ServeThree(s1, id, c);
    if Last(s).dep.selectorOk {
      ServedQuietly(s2, id, c, Listed(c.listing));
      var s3 := Step(s2, Call(id, c));
      ServedQuietly(s3, id, c, Sorted(c.order));
    }
  }

  lemma TargetSettles(s: System, id: RunId, revision: Int64, c: Choice, ticks: nat)
    requires Inv(s) && id !in s.runs && Serves(c) && TargetOf(revision, Last(s).dep, c.order).Some?
    ensures Settled(s, ServeTimes(Step(s, Spawn(id, Rollback(revision), ticks)), id, c, 6), id, Rollback(revision),
                    TargetOf(revision, Last(s).dep, c.order).value.template != Last(s).dep.spec.template)
  {
    hide Select;
    hide Step;
    hide ServeTimes;
    hide Settled;
    hide RunsOk;
    var s1 := Step(s, Spawn(id, Rollback(revision), ticks));
    var s4 := ReachTheLoop(s, id, revision, c, ticks);
    ServeThree(s1, id, c);
    LoopSettles(s, s4, id, Rollback(revision), TargetOf(revision, Last(s).dep, c.order).value, c);
    ServesAdd(s1, id, c, 3, 3);
  }

  /** Of the state before the rollback: rolled out, and the target has another template or the spec is not observed. */
  predicate StalePrecondition(revision: Int64, dep: Deployment, order: seq<ReplicaSet>) {
    && RolledOut(Rollback(revision), dep) && TargetOf(revision, dep, order).Some?
    && (TargetOf(revision, dep, order).value.template != dep.spec.template || Unobserved(dep))
  }

  /** A Rollback whose calls are all served, with nothing else happening meanwhile, reports a stale success exactly
      when, beforehand, the status says that everything is rolled out, there is a target, and the target has another
      template or the stored spec has not been observed. */
  lemma RollbackStaleExactly(s0: System, events: seq<Event>, id: RunId, revision: Int64, c: Choice,
                             ticks: nat, m: nat)
    requires Initial(s0) && id !in Exec(s0, events).runs && Serves(c) && m >= 6
    ensures StaleSuccess(Exec(s0, events + [Spawn(id, Rollback(revision), ticks)] + Calls(id, c, m)), id) <==>
            StalePrecondition(revision, Last(Exec(s0, events)).dep, c.order)
  {
    hide Step;
    hide RunsOk;
    hide CommitsOk;
    hide HistoryOk;
    hide Settled;
    hide Calls;
    hide ServeTimes;
    hide TargetOf;
    var s, spawn, op := Exec(s0, events), Spawn(id, Rollback(revision), ticks), Rollback(revision);
    var target := TargetOf(revision, Last(s).dep, c.order);
    ExecInv(s0, events);
    ExecSnoc(s0, events, spawn);
    CallsAreExec(s0, events + [spawn], id, c, m);
    ReadyMeaning(op, Last(s).dep);
    hide Ready;
    hide RolledOut;
    if target.None? {
      TargetlessFails(s, id, revision, c, ticks);
      FailedForGood(Step(s, spawn), id, c, 3, m);
    } else {
      var changed := target.value.template != Last(s).dep.spec.template;
      TargetSettles(s, id, revision, c, ticks);
      SettledForGood(s, Step(s, spawn), id, op, changed, c, 6, m);
      SettledIsStale(s, Exec(s0, events + [spawn] + Calls(id, c, m)), id, op, changed);
    }
  }

  /** From every such reachable state a rollback can report success before the controller has seen what it asked for. */
  lemma RollbackCanBeStale(s0: System, events: seq<Event>, id: RunId, revision: Int64, c: Choice)
    requires Initial(s0) && id !in Exec(s0, events).runs && Serves(c)
    requires StalePrecondition(revision, Last(Exec(s0, events)).dep, c.order)
    ensures exists more :: StaleSuccess(Exec(s0, events + more), id)
  {
    hide Step;
    hide StaleSuccess;
    hide StalePrecondition;
    hide Calls;
    var spawn := Spawn(id, Rollback(revision), 0);
    RollbackStaleExactly(s0, events, id, revision, c, 0, 6);
    assert events + ([spawn] + Calls(id, c, 6)) == events + [spawn] + Calls(id, c, 6);
  }

  /** The object with another template. */
  function Retemplated(dep: Deployment, target: ReplicaSet): Desired {
    Desired(dep.annotations, dep.spec.(template := target.template))
  }

  /** That includes rollbacks that change nothing: somebody else has just put the target's template in place, and the
      controller has not seen that yet. */
  lemma SilentRollbackCanBeStale(s0: System, events: seq<Event>, id: RunId, revision: Int64, c: Choice)
    requires Initial(s0) && id !in Exec(s0, events).runs && Serves(c)
    requires RolledOut(Rollback(revision), Last(Exec(s0, events)).dep)
    requires TargetOf(revision, Last(Exec(s0, events)).dep, c.order).Some?
    requires TargetOf(revision, Last(Exec(s0, events)).dep, c.order).value.template
             != Last(Exec(s0, events)).dep.spec.template
    ensures var dep := Last(Exec(s0, events)).dep;
            var target := TargetOf(revision, dep, c.order).value;
            var written := events + [OutsideWrite(Retemplated(dep, target))];
            && TargetOf(revision, Last(Exec(s0, written)).dep, c.order) == Some(target)
            && Last(Exec(s0, written)).dep.spec.template == target.template
            && exists more :: StaleSuccess(Exec(s0, written + more), id)
  {
    hide StaleSuccess;
    hide Exec;
    hide ParseInt;
    var s := Exec(s0, events);
    var target := TargetOf(revision, Last(s).dep, c.order).value;
    var write := OutsideWrite(Retemplated(Last(s).dep, target));
    var s' := Step(s, write);
    ExecSnoc(s0, events, write);
    assert Last(s').dep.status == Last(s).dep.status && Last(s').dep.generation == Last(s).dep.generation + 1;
    assert Unobserved(Last(s').dep) by { StatusNotAhead(s0, events); }
    RollbackCanBeStale(s0, events + [write], id, revision, c);
  }

  lemma StatusNotAhead(s0: System, events: seq<Event>)
    requires Initial(s0)
    ensures var dep := Last(Exec(s0, events)).dep; dep.status.observedGeneration <= dep.generation
  {
    ExecInv(s0, events);
    ObservedAtMostGeneration(Exec(s0, events).versions, |Exec(s0, events).versions| - 1);
  }

  // ---------- the rollback that is waved through ----------

  lemma ExecFour(s0: System, events: seq<Event>, e1: Event, e2: Event, e3: Event, e4: Event)
    requires s0.versions != []
    ensures Exec(s0, events + [e1, e2, e3, e4]) == Step(Step(Step(Step(Exec(s0, events), e1), e2), e3), e4)
  {
    hide Step;
    hide Exec;
    ExecTwo(s0, events, e1, e2);
    ExecTwo(s0, events + [e1, e2], e3, e4);
    assert events + [e1, e2] + [e3, e4] == events + [e1, e2, e3, e4];
  }

  lemma ExecTwo(s0: System, events: seq<Event>, e1: Event, e2: Event)
    requires s0.versions != []
    ensures Exec(s0, events + [e1, e2]) == Step(Step(Exec(s0, events), e1), e2)
  {
    hide Step;
    ExecSnoc(s0, events, e1);
    ExecSnoc(s0, events + [e1], e2);
    hide Exec;
    assert events + [e1] + [e2] == events + [e1, e2];
  }

  /** One attempt of the loop overtaken by the controller: read, sync, report, update. */
  function Overtaken(s: System, id: RunId, c: Choice, counts: Status): (s': System)
    requires s.versions != []
    ensures s'.versions != []
  {
    Step(Step(Step(Step(s, Call(id, c)), ControllerSync), ControllerReport(counts)), Call(id, c))
  }

  lemma MessageTellsConflict()
    ensures IsConflict(CONFLICT_MESSAGE)
  {
    var start := "Operation cannot be fulfilled: ";
    assert CONFLICT_MESSAGE[|start|..|start| + |CONFLICT_TEXT|] == CONFLICT_TEXT;
    FoundIsContained(CONFLICT_MESSAGE, CONFLICT_TEXT, |start|, |start| + |CONFLICT_TEXT|);
  }

  /** A report of something new between the read and the update makes the update a conflict. */
  lemma OvertakenConflicts(s: System, id: RunId, c: Choice, counts: Status)
    requires c.refusal.None?
    requires s.versions != [] && Active(s, id) && s.runs[id].at.Attempt?
    requires counts.unavailableReplicas != Last(s).dep.status.unavailableReplicas
    ensures var s', run := Overtaken(s, id, c, counts), s.runs[id];
            && s'.commits == s.commits
            && DesiredOf(Last(s').dep) == DesiredOf(Last(s).dep)
            && Last(s').dep.status.(observedGeneration := 0) == counts.(observedGeneration := 0)
            && id in s'.runs && s'.runs[id].op == run.op && s'.runs[id].commit == run.commit
            && s'.runs[id].attempts == run.attempts + 1 && s'.runs[id].conflicts == run.conflicts + 1
            && s'.runs[id].at == if run.at.n + 1 < MAX_ATTEMPTS then Attempt(run.at.n + 1, run.at.target) else Polling
  {
    ServedQuietly(s, id, c, Got(Last(s).dep));
    var s1 := Step(s, Call(id, c));
    var s2 := Step(s1, ControllerSync);
    var s3 := Step(s2, ControllerReport(counts));
    MessageTellsConflict();
    assert Answer(s3, s3.runs[id], Ask(s3.runs[id].op, s3.runs[id].at), c) == Error(CONFLICT_MESSAGE);
  }

  /** The counts reported in round n of a deployment that recovers: more replicas than u are unavailable at first, and
      none in round 5. */
  function RoundCounts(want: Int32, u: nat, n: nat): Status {
    Status(0, want, want, want, if n < MAX_ATTEMPTS then u + MAX_ATTEMPTS - n else 0)
  }

  function OvertakenTimes(s: System, id: RunId, c: Choice, want: Int32, u: nat, n: nat): (s': System)
    requires s.versions != []
    ensures s'.versions != []
  {
    if n == 0 then s else Overtaken(OvertakenTimes(s, id, c, want, u, n - 1), id, c, RoundCounts(want, u, n))
  }

  function OvertakenEvents(id: RunId, c: Choice, want: Int32, u: nat, n: nat): seq<Event> {
    if n == 0 then []
    else
      OvertakenEvents(id, c, want, u, n - 1)
      + [Call(id, c), ControllerSync, ControllerReport(RoundCounts(want, u, n)), Call(id, c)]
  }

  lemma {:induction false} OvertakenIsExec(s0: System, events: seq<Event>, id: RunId, c: Choice, want: Int32, u: nat,
                                           n: nat)
    requires s0.versions != []
    ensures Exec(s0, events + OvertakenEvents(id, c, want, u, n)) == OvertakenTimes(Exec(s0, events), id, c, want, u, n)
  {
    hide Step;
    hide Exec;
    if n == 0 {
      assert events + [] == events;
    } else {
      OvertakenIsExec(s0, events, id, c, want, u, n - 1);
      var es := events + OvertakenEvents(id, c, want, u, n - 1);
      var call, report := Call(id, c), ControllerReport(RoundCounts(want, u, n));
      ExecFour(s0, es, call, ControllerSync, report, call);
      assert events + OvertakenEvents(id, c, want, u, n) == es + [call, ControllerSync, report, call];
    }
  }

  lemma {:induction false} AllConflict(s: System, id: RunId, c: Choice, want: Int32, u: nat, n: nat)
    requires c.refusal.None?
    requires s.versions != [] && Active(s, id)
    requires s.runs[id].at.Attempt? && s.runs[id].at.n == 0 && s.runs[id].attempts == 0 && s.runs[id].conflicts == 0
    requires 0 < n <= MAX_ATTEMPTS && Last(s).dep.status.unavailableReplicas <= u
    ensures var s', run := OvertakenTimes(s, id, c, want, u, n), s.runs[id];
            && s'.commits == s.commits
            && DesiredOf(Last(s').dep) == DesiredOf(Last(s).dep)
            && Last(s').dep.status.(observedGeneration := 0) == RoundCounts(want, u, n)
            && id in s'.runs && s'.runs[id].op == run.op && s'.runs[id].commit == run.commit
            && s'.runs[id].attempts == n && s'.runs[id].conflicts == n
            && s'.runs[id].at == if n < MAX_ATTEMPTS then Attempt(n, run.at.target) else Polling
  {
    hide Step;
    hide Overtaken;
    if n > 1 {
      AllConflict(s, id, c, want, u, n - 1);
      OvertakenConflicts(OvertakenTimes(s, id, c, want, u, n - 1), id, c, RoundCounts(want, u, n));
    } else {
      assert OvertakenTimes(s, id, c, want, u, 0) == s;
      OvertakenConflicts(s, id, c, RoundCounts(want, u, n));
    }
  }

  /** Success although nothing was written. */
  predicate WavedThrough(s: System, id: RunId) {
    id in s.runs && s.runs[id].at == Done(Success) && GaveUp(s.runs[id])
  }

  lemma ConflictsAreWavedThrough(s: System, id: RunId, c: Choice, want: Int32, u: nat)
    requires c.refusal.None?
    requires s.versions != [] && Active(s, id) && s.runs[id].op.Rollback?
    requires s.runs[id].at.Attempt? && s.runs[id].at.n == 0
    requires s.runs[id].attempts == 0 && s.runs[id].conflicts == 0
    requires want == Last(s).dep.spec.replicas && Last(s).dep.status.unavailableReplicas <= u
    ensures var s' := Step(OvertakenTimes(s, id, c, want, u, MAX_ATTEMPTS), Call(id, c));
            WavedThrough(s', id) && s'.commits == s.commits
  {
    hide OvertakenTimes;
    AllConflict(s, id, c, want, u, MAX_ATTEMPTS);
    var s5 := OvertakenTimes(s, id, c, want, u, MAX_ATTEMPTS);
    ServedQuietly(s5, id, c, Got(Last(s5).dep));
  }

  lemma LoopIsWavedThrough(s: System, id: RunId, revision: Int64, c: Choice, want: Int32, u: nat)
    requires Inv(s) && id !in s.runs && Last(s).dep.selectorOk && Serves(c)
    requires Select(revision, Last(s).dep, c.order).Chosen?
    requires want == Last(s).dep.spec.replicas && Last(s).dep.status.unavailableReplicas <= u
    ensures var call := Call(id, c);
            var s4 := Step(Step(Step(Step(s, Spawn(id, Rollback(revision), 0)), call), call), call);
            var s' := Step(OvertakenTimes(s4, id, c, want, u, MAX_ATTEMPTS), call);
            WavedThrough(s', id) && s'.commits == s.commits
  {
    hide OvertakenTimes;
    var s4 := ReachTheLoop(s, id, revision, c, 0);
    ConflictsAreWavedThrough(s4, id, c, want, u);
  }

  function WaveThroughEvents(id: RunId, revision: Int64, c: Choice, want: Int32, u: nat): seq<Event> {
    [Spawn(id, Rollback(revision), 0), Call(id, c), Call(id, c), Call(id, c)]
    + (OvertakenEvents(id, c, want, u, MAX_ATTEMPTS) + [Call(id, c)])
  }

  lemma WaveThroughIsExec(s0: System, events: seq<Event>, id: RunId, revision: Int64, c: Choice,
                          want: Int32, u: nat)
    requires Initial(s0)
    ensures var call := Call(id, c);
            var s4 := Step(Step(Step(Step(Exec(s0, events), Spawn(id, Rollback(revision), 0)), call), call), call);
            Exec(s0, events + WaveThroughEvents(id, revision, c, want, u))
            == Step(OvertakenTimes(s4, id, c, want, u, MAX_ATTEMPTS), call)
  {
    hide Step;
    hide OvertakenTimes;
    hide OvertakenEvents;
    var spawn, call := Spawn(id, Rollback(revision), 0), Call(id, c);
    var prefix, es := [spawn, call, call, call], OvertakenEvents(id, c, want, u, MAX_ATTEMPTS);
    ExecFour(s0, events, spawn, call, call, call);
    OvertakenIsExec(s0, events + prefix, id, c, want, u, MAX_ATTEMPTS);
    ExecSnoc(s0, events + prefix + es, call);
    assert events + (prefix + (es + [call])) == events + prefix + es + [call];
  }

  /** The one case the retry loop lets through does occur: from every reachable state where a target can be selected,
      five attempts, each overtaken by a controller that reports something new, end in success without any commit. */
  lemma RollbackCanSucceedWithoutCommit(s0: System, events: seq<Event>, id: RunId, revision: Int64,
                                        c: Choice)
    requires Initial(s0) && id !in Exec(s0, events).runs
    requires Last(Exec(s0, events)).dep.selectorOk && Serves(c)
    requires Select(revision, Last(Exec(s0, events)).dep, c.order).Chosen?
    ensures exists more ::
              WavedThrough(Exec(s0, events + more), id)
              && Exec(s0, events + more).commits == Exec(s0, events).commits
  {
    hide Step;
    hide WavedThrough;
    hide Select;
    hide Inv;
    var want := Last(Exec(s0, events)).dep.spec.replicas;
    var u: nat := if Last(Exec(s0, events)).dep.status.unavailableReplicas < 0 then 0
                  else Last(Exec(s0, events)).dep.status.unavailableReplicas;
    var more := WaveThroughEvents(id, revision, c, want, u);
    assert WavedThrough(Exec(s0, events + more), id)
           && Exec(s0, events + more).commits == Exec(s0, events).commits by {
      ExecInv(s0, events);
      LoopIsWavedThrough(Exec(s0, events), id, revision, c, want, u);
      WaveThroughIsExec(s0, events, id, revision, c, want, u);
    }
  }
}
