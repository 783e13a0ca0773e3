/** What a whole run of Scale, Rollback or Restart asked and heard, told without the places of the program: which
    requests it makes, what it writes, and exactly when and how it ends. */
module Traces {
  import opened Decimal
  import opened Wrappers
  import opened KubeObjects
  import opened Sorting
  import opened Revisions
  import opened Operations

  type Trace = seq<Exchange>

  // ---------- the words of the statements ----------

  /** The text occurs in the message, wherever. */
  predicate TellsConflict(message: string) {
    exists i, j :: 0 <= i <= j <= |message| && message[i..j] == "the object has been modified"
  }

  /** An update of a rollback refused with a conflict, the only refusal a run survives. */
  predicate Conflicts(op: Op, x: Exchange) {
    op.Rollback? && x.request.Update? && x.reply.Error? && TellsConflict(x.reply.message)
  }

  function ConflictCount(op: Op, t: Trace): nat {
    if t == [] then 0 else ConflictCount(op, t[..|t| - 1]) + if Conflicts(op, t[|t| - 1]) then 1 else 0
  }

  /** The updates are over: one was accepted, or five conflicted. */
  predicate Polls(op: Op, t: Trace) {
    (exists k :: 0 <= k < |t| && t[k].reply.Updated?) || ConflictCount(op, t) >= 5
  }

  /** The counts that end the poll with success. */
  predicate RolledOut(op: Op, dep: Deployment) {
    match op
    case Scale(n) => dep.status.availableReplicas == n
    case Restart(_) =>
      && dep.generation <= dep.status.observedGeneration
      && dep.status.updatedReplicas == dep.status.availableReplicas == dep.spec.replicas
      && dep.status.unavailableReplicas == 0
    case Rollback(_) =>
      && dep.status.updatedReplicas == dep.status.availableReplicas == dep.status.replicas == dep.spec.replicas
      && dep.status.unavailableReplicas == 0
  }

  /** With this as its last exchange, after the others, a run returns, and returns this. */
  predicate Explains(op: Op, before: Trace, x: Exchange, outcome: Outcome) {
    match outcome
    case Success => Polls(op, before) && x.request.Get? && x.reply.Got? && RolledOut(op, x.reply.dep)
    case Failed(FetchFailed(m)) => !Polls(op, before) && x == Exchange(Get, Error(m))
    case Failed(PollFailed(m)) => Polls(op, before) && x == Exchange(Get, Error(m))
    case Failed(ListFailed(m)) => x == Exchange(List, Error(m))
    case Failed(UpdateRefused(m)) => x.request.Update? && x.reply == Error(m) && !Conflicts(op, x)
    case Failed(ContextEnded) => x == Exchange(Wait, Cancelled)
    case Failed(BadSelector) => op.Rollback? && before == [] && x.reply.Got? && !x.reply.dep.selectorOk
    case Failed(why) =>
      && op.Rollback? && x.reply.Sorted? && before != [] && before[0].reply.Got?
      && Select(op.revision, before[0].reply.dep, x.reply.order) == Refused(why)
  }

  /** An update sends what was just read, with the operation's own field changed and everything else as it was. */
  ghost predicate Writes(op: Op, before: Trace, got: Deployment, sent: Deployment) {
    && sent == got.(spec := sent.spec)
    && match op
       case Scale(n) => sent.spec == got.spec.(replicas := n)
       case Restart(stamp) =>
         sent.spec.replicas == got.spec.replicas && Stamps(got.spec.template, sent.spec.template, stamp)
       case Rollback(revision) =>
         && |before| > 2 && before[0].reply.Got? && before[2].reply.Sorted?
         && var chosen := Select(revision, before[0].reply.dep, before[2].reply.order);
            chosen.Chosen? && sent.spec == got.spec.(template := chosen.target.template)
  }

  /** One annotation is set; the others, and the containers, stay. */
  ghost predicate Stamps(from: PodTemplate, to: PodTemplate, stamp: string) {
    var key := "kubectl.kubernetes.io/restartedAt";
    && to.containers == from.containers
    && to.annotations.Some? && key in to.annotations.value && to.annotations.value[key] == stamp
    && forall k :: k != key ==> SameEntry(from.annotations, to.annotations.value, k)
  }

  predicate SameEntry(from: Option<map<string, string>>, to: map<string, string>, k: string) {
    if from.Some? && k in from.value then k in to && to[k] == from.value[k] else k !in to
  }

  /** The request that follows these exchanges. */
  ghost predicate Follows(op: Op, before: Trace, request: Request) {
    if before == [] then request.Get?
    else
      var front, x := before[..|before| - 1], before[|before| - 1];
      match x.request
      case Get =>
        if Polls(op, front) then request.Wait?
        else if op.Rollback? && front == [] then request.List?
        else x.reply.Got? && request.Update? && Writes(op, before, x.reply.dep, request.dep)
      case List => x.reply.Listed? && request == Sort(x.reply.sets)
      case _ => request.Get?
  }

  /** Everything a run has done: the requests came in order, each got a possible reply, nothing was asked after an
      exchange that ends a run, and the run is over, with this outcome, exactly when its last exchange says so. */
  ghost predicate Tells(op: Op, at: Place, t: Trace) {
    && (forall k :: 0 <= k < |t| ==> Follows(op, t[..k], t[k].request) && Fits(t[k].request, t[k].reply))
    && (forall k, o :: 0 <= k < |t| - 1 ==> !Explains(op, t[..k], t[k], o))
    && (forall o :: at == Done(o) <==> t != [] && Explains(op, t[..|t| - 1], t[|t| - 1], o))
  }

  // ---------- the proof: what the trace says about the place ----------

  lemma {:induction false} ContainedIsFound(s: string, part: string) returns (i: nat, j: nat)
    requires Contains(s, part)
    ensures i <= j <= |s| && s[i..j] == part
  {
    if part <= s {
      i, j := 0, |part|;
    } else {
      i, j := ContainedIsFound(s[1..], part);
      assert s[i + 1..j + 1] == s[1..][i..j];
      i, j := i + 1, j + 1;
    }
  }

  lemma {:induction false} FoundIsContained(s: string, part: string, i: nat, j: nat)
    requires i <= j <= |s| && s[i..j] == part
    ensures Contains(s, part)
  {
    if i > 0 {
      assert s[1..][i - 1..j - 1] == s[i..j];
      FoundIsContained(s[1..], part, i - 1, j - 1);
    }
  }

  lemma ConflictMeaning(message: string)
    ensures IsConflict(message) <==> TellsConflict(message)
  {
    if IsConflict(message) {
      var i, j := ContainedIsFound(message, CONFLICT_TEXT);
    }
    if i, j :| 0 <= i <= j <= |message| && message[i..j] == CONFLICT_TEXT {
      FoundIsContained(message, CONFLICT_TEXT, i, j);
    }
  }

  lemma ReadyMeaning(op: Op, dep: Deployment)
    ensures Ready(op, dep) <==> RolledOut(op, dep)
  {
  }

  lemma StampMeaning(t: PodTemplate, stamp: string)
    ensures Stamps(t, Stamp(t, stamp), stamp)
  {
  }

  /** The rollback has chosen this target. */
  predicate HasTarget(op: Op, t: Trace, target: ReplicaSet) {
    && op.Rollback? && |t| > 2 && t[0].reply.Got? && t[2].reply.Sorted?
    && Select(op.revision, t[0].reply.dep, t[2].reply.order) == Chosen(target)
  }

  function Newest(t: Trace): Exchange
    requires t != []
  { t[|t| - 1] }

  function Older(t: Trace): Trace
    requires t != []
  { t[..|t| - 1] }

  /** The exchanges behind each place. */
  predicate Behind(op: Op, at: Place, t: Trace) {
    ConflictCount(op, t) <= 5 &&
    match at
    case Begin => t == []
    case Fetched(dep) => !op.Rollback? && t == [Exchange(Get, Got(dep))]
    case Listing(base) => op.Rollback? && t == [Exchange(Get, Got(base))]
    case Arranging(base, listing) =>
      op.Rollback? && t == [Exchange(Get, Got(base)), Exchange(List, Listed(listing))]
    case Attempt(n, target) =>
      HasTarget(op, t, target) && !Polls(op, t) && ConflictCount(op, t) == n
      && (Newest(t).request.Sort? || Newest(t).request.Update?)
    case Retrying(n, target, dep) =>
      HasTarget(op, t, target) && !Polls(op, t) && ConflictCount(op, t) == n && |t| > 3
      && Newest(t) == Exchange(Get, Got(dep))
    case Polling =>
      Polls(op, t) && |t| > (if op.Rollback? then 3 else 1) && (Newest(t).request.Update? || Newest(t).request.Wait?)
    case Waiting =>
      |t| > (if op.Rollback? then 3 else 1) && Polls(op, Older(t)) && Polls(op, t) && Newest(t).request.Get?
    case Done(_) => t != []
  }

  lemma PollsSnoc(op: Op, t: Trace, x: Exchange)
    ensures ConflictCount(op, t + [x]) == ConflictCount(op, t) + if Conflicts(op, x) then 1 else 0
    ensures Polls(op, t + [x]) <==> Polls(op, t) || x.reply.Updated? || ConflictCount(op, t + [x]) >= 5
  {
    var t' := t + [x];
    assert t'[..|t|] == t;
    if Polls(op, t) && ConflictCount(op, t) < 5 {
      var k :| 0 <= k < |t| && t[k].reply.Updated?;
      assert t'[k].reply.Updated?;
    }
    if x.reply.Updated? {
      assert t'[|t|].reply.Updated?;
    }
  }

  /** What one step of the program adds to the trace, place by place. */
  ghost predicate StepTells(op: Op, at: Place, t: Trace, reply: Reply)
    requires WellPlaced(op, at) && !at.Done? && Fits(Ask(op, at), reply)
  {
    var x, next := Exchange(Ask(op, at), reply), Advance(op, at, reply);
    && Behind(op, next, t + [x]) && Follows(op, t, x.request)
    && forall o :: next == Done(o) <==> Explains(op, t, x, o)
  }

  lemma TellsBegin(op: Op, t: Trace, reply: Reply)
    requires Behind(op, Begin, t) && Fits(Get, reply)
    ensures StepTells(op, Begin, t, reply)
  {
    PollsSnoc(op, t, Exchange(Get, reply));
  }

  lemma TellsFetched(op: Op, dep: Deployment, t: Trace, reply: Reply)
    requires Behind(op, Fetched(dep), t) && Fits(Ask(op, Fetched(dep)), reply)
    ensures StepTells(op, Fetched(dep), t, reply)
  {
    PollsSnoc(op, t, Exchange(Ask(op, Fetched(dep)), reply));
    if op.Restart? {
      StampMeaning(dep.spec.template, op.stamp);
    }
    assert Older(t) == [];
    hide Stamp;
    hide Stamps;
  }

  lemma TellsListing(op: Op, base: Deployment, t: Trace, reply: Reply)
    requires Behind(op, Listing(base), t) && Fits(List, reply)
    ensures StepTells(op, Listing(base), t, reply)
  {
    assert Older(t) == [];
    PollsSnoc(op, t, Exchange(List, reply));
  }

  lemma ArrangingDoesNotPoll(op: Op, base: Deployment, listing: seq<ReplicaSet>, t: Trace)
    requires Behind(op, Arranging(base, listing), t)
    ensures !Polls(op, t) && ConflictCount(op, t) == 0
  {
    PollsSnoc(op, [], t[0]);
    PollsSnoc(op, [t[0]], t[1]);
    assert [] + [t[0]] == [t[0]] && [t[0]] + [t[1]] == t;
  }

  lemma TellsArranging(op: Op, base: Deployment, listing: seq<ReplicaSet>, t: Trace, reply: Reply)
    requires Behind(op, Arranging(base, listing), t) && Fits(Sort(listing), reply)
    ensures StepTells(op, Arranging(base, listing), t, reply)
  {
    hide IsSorting;
    hide ParseInt;
    hide FindText;
    hide FindValue;
    ArrangingDoesNotPoll(op, base, listing, t);
    PollsSnoc(op, t, Exchange(Sort(listing), reply));
    hide Polls;
    hide ConflictCount;
  }

  lemma TellsAttempt(op: Op, n: nat, target: ReplicaSet, t: Trace, reply: Reply)
    requires WellPlaced(op, Attempt(n, target)) && Behind(op, Attempt(n, target), t) && Fits(Get, reply)
    ensures StepTells(op, Attempt(n, target), t, reply)
  {
    hide Select;
    PollsSnoc(op, t, Exchange(Get, reply));
    assert (t + [Exchange(Get, reply)])[..|t|] == t;
  }

  lemma TellsRetrying(op: Op, n: nat, target: ReplicaSet, dep: Deployment, t: Trace, reply: Reply)
    requires WellPlaced(op, Retrying(n, target, dep)) && Behind(op, Retrying(n, target, dep), t)
    requires Fits(Ask(op, Retrying(n, target, dep)), reply)
    ensures StepTells(op, Retrying(n, target, dep), t, reply)
  {
    hide Select;
    var x := Exchange(Ask(op, Retrying(n, target, dep)), reply);
    PollsSnoc(op, t, x);
    PollsSnoc(op, Older(t), Newest(t));
    assert Older(t) + [Newest(t)] == t;
    if reply.Error? {
      ConflictMeaning(reply.message);
    }
  }

  lemma TellsPolling(op: Op, t: Trace, reply: Reply)
    requires Behind(op, Polling, t) && Fits(Get, reply)
    ensures StepTells(op, Polling, t, reply)
  {
    var x := Exchange(Get, reply);
    assert Older(t + [x]) == t;
    PollsSnoc(op, t, x);
    if reply.Got? {
      ReadyMeaning(op, reply.dep);
    }
    hide Ready;
    hide RolledOut;
  }

  lemma TellsWaiting(op: Op, t: Trace, reply: Reply)
    requires Behind(op, Waiting, t) && Fits(Wait, reply)
    ensures StepTells(op, Waiting, t, reply)
  {
    hide RolledOut;
    hide Writes;
    hide Select;
    PollsSnoc(op, t, Exchange(Wait, reply));
    hide Polls;
  }

  lemma TellsStep(op: Op, at: Place, t: Trace, reply: Reply)
    requires WellPlaced(op, at) && !at.Done? && Behind(op, at, t) && Fits(Ask(op, at), reply)
    ensures StepTells(op, at, t, reply)
  {
    hide StepTells;
    hide Behind;
    hide Fits;
    match at
    case Begin => TellsBegin(op, t, reply);
    case Fetched(dep) => TellsFetched(op, dep, t, reply);
    case Listing(base) => TellsListing(op, base, t, reply);
    case Arranging(base, listing) => TellsArranging(op, base, listing, t, reply);
    case Attempt(n, target) => TellsAttempt(op, n, target, t, reply);
    case Retrying(n, target, dep) => TellsRetrying(op, n, target, dep, t, reply);
    case Polling => TellsPolling(op, t, reply);
    case Waiting => TellsWaiting(op, t, reply);
  }

  /** Tells is kept by every step. */
  lemma TellsOn(op: Op, at: Place, t: Trace, reply: Reply)
    requires WellPlaced(op, at) && !at.Done? && Behind(op, at, t) && Tells(op, at, t) && Fits(Ask(op, at), reply)
    ensures Behind(op, Advance(op, at, reply), t + [Exchange(Ask(op, at), reply)])
    ensures Tells(op, Advance(op, at, reply), t + [Exchange(Ask(op, at), reply)])
  {
    TellsStep(op, at, t, reply);
    hide Follows;
    hide Explains;
    hide Behind;
    hide Advance;
    hide Ask;
    hide Fits;
    var t' := t + [Exchange(Ask(op, at), reply)];
    assert t'[..|t|] == t;
    FollowsOn(op, t, t'[|t|]);
    forall k, o | 0 <= k < |t'| - 1 ensures !Explains(op, t'[..k], t'[k], o) {
      Unexplained(op, at, t, k, o);
      assert t'[..k] == t[..k];
    }
  }

  lemma FollowsOn(op: Op, t: Trace, x: Exchange)
    requires forall k :: 0 <= k < |t| ==> Follows(op, t[..k], t[k].request) && Fits(t[k].request, t[k].reply)
    requires Follows(op, t, x.request) && Fits(x.request, x.reply)
    ensures var t' := t + [x];
            forall k :: 0 <= k < |t'| ==> Follows(op, t'[..k], t'[k].request) && Fits(t'[k].request, t'[k].reply)
  {
    hide Follows;
    hide Fits;
    var t' := t + [x];
    forall k | 0 <= k < |t'| ensures Follows(op, t'[..k], t'[k].request) && Fits(t'[k].request, t'[k].reply) {
      assert t'[..k] == t[..k];
    }
    assert t[..|t|] == t;
  }

  lemma Unexplained(op: Op, at: Place, t: Trace, k: nat, o: Outcome)
    requires Tells(op, at, t) && !at.Done? && k < |t|
    ensures !Explains(op, t[..k], t[k], o)
  {
    hide Explains;
    hide Follows;
    if k == |t| - 1 {
      assert at == Done(o) <==> Explains(op, t[..k], t[k], o);
    }
  }
}
