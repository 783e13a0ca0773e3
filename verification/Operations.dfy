/** Scale, Rollback and Restart as reactive programs: what each asks of the cluster next, and how it goes on from the
    answer. One step is one call into the cluster (or one wait between polls) with the local work that follows it. */
module Operations {
  import opened Decimal
  import opened Wrappers
  import opened KubeObjects
  import opened Sorting
  import opened Revisions

  const RESTARTED_AT := "kubectl.kubernetes.io/restartedAt"
  const CONFLICT_TEXT := "the object has been modified"
  const MAX_ATTEMPTS := 5

  datatype Op =
    | Scale(replicas: Int32)
    | Rollback(revision: Int64)
    | Restart(stamp: string)

  datatype Outcome = Success | Failed(why: Failure)

  /** Where a run is. The deployment and ReplicaSets it holds in local variables are part of the place. */
  datatype Place =
    | Begin                                                      // about to read the deployment
    | Fetched(dep: Deployment)                                   // Scale, Restart: about to update
    | Listing(base: Deployment)                                  // Rollback: about to list ReplicaSets
    | Arranging(base: Deployment, listing: seq<ReplicaSet>)        // Rollback: about to sort them
    | Attempt(n: nat, target: ReplicaSet)                        // Rollback: attempt n, about to read
    | Retrying(n: nat, target: ReplicaSet, dep: Deployment)      // Rollback: attempt n, about to update
    | Polling                                                    // about to read inside the poll
    | Waiting                                                    // between two polls
    | Done(outcome: Outcome)

  datatype Request = Get | List | Sort(listing: seq<ReplicaSet>) | Update(dep: Deployment) | Wait

  datatype Reply =
    | Got(dep: Deployment)
    | Listed(sets: seq<ReplicaSet>)
    | Sorted(order: seq<ReplicaSet>)
    | Updated
    | Error(message: string)
    | Tick
    | Cancelled

  /** A request and the reply it got. */
  datatype Exchange = Exchange(request: Request, reply: Reply)

  /** Lines sent to the log channel; their wording is not modelled. */
  datatype Line =
    | FetchError | Scaling(replicas: Int32) | UpdateError | Launched | ReadError | Progress(available: int) | Completed
    | Fetching | SelectorFetching | SelectorError | Selector | ListingSets | ListError | SetsFound(count: nat)
    | SetLine(index: nat, name: string) | Refusal(why: Failure) | TargetFound(name: string)
    | Applying | Conflict | AwaitingRollback | RollbackError | RolledBack

  // ---------- the local work ----------

  predicate Contains(s: string, part: string) {
    part <= s || (s != [] && Contains(s[1..], part))
  }

  /** The test that decides whether the rollback loop tries again. */
  predicate IsConflict(message: string) { Contains(message, CONFLICT_TEXT) }

  function SetReplicas(dep: Deployment, n: Int32): Deployment {
    dep.(spec := dep.spec.(replicas := n))
  }

  function SetTemplate(dep: Deployment, t: PodTemplate): Deployment {
    dep.(spec := dep.spec.(template := t))
  }

  function Stamp(t: PodTemplate, stamp: string): PodTemplate {
    var annotations := if t.annotations.None? then map[] else t.annotations.value;
    t.(annotations := Some(annotations[RESTARTED_AT := stamp]))
  }

  function SetStamp(dep: Deployment, stamp: string): Deployment {
    SetTemplate(dep, Stamp(dep.spec.template, stamp))
  }

  /** The condition under which the poll of each operation reports success. */
  predicate Ready(op: Op, dep: Deployment) {
    var st, want := dep.status, dep.spec.replicas;
    match op
    case Scale(n) => st.availableReplicas == n
    case Rollback(_) => st.availableReplicas == want && st.updatedReplicas == want && st.replicas == want
                        && st.unavailableReplicas == 0
    case Restart(_) => dep.generation <= st.observedGeneration && st.updatedReplicas == want
                       && st.availableReplicas == want && st.unavailableReplicas == 0
  }

  // ---------- the programs ----------

  /** Attempts and ReplicaSets in local variables only occur where the program can put them. */
  predicate WellPlaced(op: Op, at: Place) {
    match at
    case Fetched(_) => !op.Rollback?
    case Listing(_) | Arranging(_, _) => op.Rollback?
    case Attempt(n, _) => op.Rollback? && n < MAX_ATTEMPTS
    case Retrying(n, _, _) => op.Rollback? && n < MAX_ATTEMPTS
    case _ => true
  }

  function Ask(op: Op, at: Place): Request
    requires WellPlaced(op, at) && !at.Done?
  {
    match at
    case Begin => Get
    case Fetched(dep) => Update(if op.Scale? then SetReplicas(dep, op.replicas) else SetStamp(dep, op.stamp))
    case Listing(_) => List
    case Arranging(_, listing) => Sort(listing)
    case Attempt(_, _) => Get
    case Retrying(_, target, dep) => Update(SetTemplate(dep, target.template))
    case Polling => Get
    case Waiting => Wait
  }

  /** The reply is one the request can have. */
  predicate Fits(request: Request, reply: Reply) {
    match request
    case Get => reply.Got? || reply.Error?
    case List => reply.Listed? || reply.Error?
    case Sort(listing) => reply.Sorted? && IsSorting(Newer, reply.order, listing)
    case Update(_) => reply.Updated? || reply.Error?
    case Wait => reply.Tick? || reply.Cancelled?
  }

  function Advance(op: Op, at: Place, reply: Reply): (next: Place)
    requires WellPlaced(op, at) && !at.Done? && Fits(Ask(op, at), reply)
    ensures WellPlaced(op, next)
  {
    match at
    case Begin => (match reply
      case Error(m) => Done(Failed(FetchFailed(m)))
      case Got(dep) =>
        if !op.Rollback? then Fetched(dep)
        else if !dep.selectorOk then Done(Failed(BadSelector))
        else Listing(dep))
    case Fetched(_) => (match reply
      case Error(m) => Done(Failed(UpdateRefused(m)))
      case Updated => Polling)
    case Listing(base) => (match reply
      case Error(m) => Done(Failed(ListFailed(m)))
      case Listed(sets) => Arranging(base, sets))
    case Arranging(base, _) => (match Select(op.revision, base, reply.order)
      case Refused(why) => Done(Failed(why))
      case Chosen(target) => Attempt(0, target))
    case Attempt(n, target) => (match reply
      case Error(m) => Done(Failed(FetchFailed(m)))
      case Got(dep) => Retrying(n, target, dep))
    case Retrying(n, target, _) => (match reply
      case Updated => Polling
      case Error(m) =>
        if !IsConflict(m) then Done(Failed(UpdateRefused(m)))
        else if n + 1 < MAX_ATTEMPTS then Attempt(n + 1, target)
        else Polling)
    case Polling => (match reply
      case Error(m) => Done(Failed(PollFailed(m)))
      case Got(dep) => if Ready(op, dep) then Done(Success) else Waiting)
    case Waiting => (match reply
      case Tick => Polling
      case Cancelled => Done(Failed(ContextEnded)))
  }

  /** One line for each of the first n ReplicaSets of the list. */
  function SetLines(sets: seq<ReplicaSet>, n: nat): seq<Line>
    requires n <= |sets|
  {
    if n == 0 then [] else SetLines(sets, n - 1) + [SetLine(n - 1, sets[n - 1].name)]
  }

  /** The lines the run has sent between the previous reply and its next call. */
  function Lines(op: Op, at: Place, reply: Reply): seq<Line>
    requires WellPlaced(op, at) && !at.Done? && Fits(Ask(op, at), reply)
  {
    match at
    case Begin =>
      (if op.Rollback? then [Fetching] else []) +
      (match reply
       case Error(_) => [FetchError]
       case Got(dep) =>
         match op
         case Scale(n) => [Scaling(n)]
         case Restart(_) => []
         case Rollback(_) => if dep.selectorOk then [SelectorFetching, Selector, ListingSets]
                             else [SelectorFetching, SelectorError])
    case Fetched(_) => if reply.Error? then [UpdateError] else [Launched]
    case Listing(_) =>
      if reply.Error? then [ListError] else [SetsFound(|reply.sets|)] + SetLines(reply.sets, |reply.sets|)
    case Arranging(base, _) => (match Select(op.revision, base, reply.order)
      case Refused(why) => [Refusal(why)]
      case Chosen(target) => [TargetFound(target.name), Applying])
    case Attempt(_, _) => if reply.Error? then [FetchError] else []
    case Retrying(n, _, _) => (match reply
      case Updated => [AwaitingRollback]
      case Error(m) =>
        if !IsConflict(m) then [UpdateError]
        else if n + 1 < MAX_ATTEMPTS then [Conflict]
        else [Conflict, AwaitingRollback])
    case Polling => (match reply
      case Error(_) => if op.Rollback? then [ReadError, RollbackError] else [ReadError]
      case Got(dep) =>
        [Progress(dep.status.availableReplicas)] +
        (if !Ready(op, dep) then [] else if op.Rollback? then [RolledBack] else [Completed]))
    case Waiting => if reply.Cancelled? && op.Rollback? then [RollbackError] else []
  }

  /** Upper bound on the calls and waits a run has still to make when its context survives this many waits. */
  function Remaining(at: Place, ticks: nat): nat {
    2 * ticks +
    match at
    case Begin => 15
    case Listing(_) => 14
    case Arranging(_, _) => 13
    case Attempt(n, _) => if n < MAX_ATTEMPTS then 12 - 2 * n else 4
    case Retrying(n, _, _) => if n < MAX_ATTEMPTS then 11 - 2 * n else 3
    case Fetched(_) => 3
    case Polling => 2
    case Waiting => 1
    case Done(_) => 0
  }
}
