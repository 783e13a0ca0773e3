/** The API server's Deployment object shared by any number of operation runs, outside writers and the controller that
    writes its status. One event is one atomic step of one of them; a list of events is one interleaving. */
module Cluster {
  import opened Wrappers
  import opened KubeObjects
  import opened Operations

  type RunId = nat

  /** The part of a Deployment that an Update replaces. */
  datatype Desired = Desired(annotations: map<string, string>, spec: Spec)

  function DesiredOf(dep: Deployment): Desired { Desired(dep.annotations, dep.spec) }

  /** What a committed Update is meant to do, as an atomic edit of whatever is stored at that moment. */
  datatype Edit =
    | ReplicasEdit(replicas: Int32)
    | TemplateEdit(template: PodTemplate)
    | StampEdit(stamp: string)
    | OutsideEdit(desired: Desired)

  function Apply(e: Edit, d: Desired): Desired {
    match e
    case ReplicasEdit(n) => d.(spec := d.spec.(replicas := n))
    case TemplateEdit(t) => d.(spec := d.spec.(template := t))
    case StampEdit(stamp) => d.(spec := d.spec.(template := Stamp(d.spec.template, stamp)))
    case OutsideEdit(desired) => desired
  }

  /** author is None for outside writers; changed records whether the stored spec changed; index is the version that
      holds the result. */
  datatype Commit = Commit(author: Option<RunId>, edit: Edit, changed: bool, index: nat)

  function Fold(d: Desired, commits: seq<Commit>): Desired {
    if commits == [] then d
    else Apply(commits[|commits| - 1].edit, Fold(d, commits[..|commits| - 1]))
  }

  /** One stored version of the object. basis is the version its status was computed from, None when that was from a
      generation before the first version's; applied is the number of commits the version contains. Both are
      bookkeeping that no client sees. */
  datatype Version = Version(dep: Deployment, basis: Option<nat>, applied: nat)

  /** A run. Apart from op, at and ticks (waits its context still survives) the fields record its past: the ticks it
      was given, the lines it logged, the version it read last, its exchanges, the attempts and conflicts of the
      rollback loop, its commit, and what it selected its target from. */
  datatype Run = Run(op: Op, at: Place, ticks: nat, granted: nat, lines: seq<Line>, read: nat,
                     trace: seq<Exchange>, attempts: nat, conflicts: nat, commit: Option<nat>, picked: Option<Picked>)

  datatype Picked = Picked(base: Deployment, listing: seq<ReplicaSet>, order: seq<ReplicaSet>)

  function NewRun(op: Op, ticks: nat): Run {
    Run(op, Begin, ticks, ticks, [], 0, [], 0, 0, None, None)
  }

  /** seen is the version the controller's cache holds. */
  datatype System = System(versions: seq<Version>, seen: nat, commits: seq<Commit>, runs: map<RunId, Run>)

  /** How the environment resolves one call: refuse it with an error text (a wait: end the context), or serve it,
      with this list of ReplicaSets, or this outcome of the sort. */
  datatype Choice = Choice(refusal: Option<string>, listing: seq<ReplicaSet>, order: seq<ReplicaSet>)

  datatype Event =
    | Spawn(id: RunId, op: Op, ticks: nat)
    | Call(id: RunId, choice: Choice)
    | OutsideWrite(desired: Desired)
    | ControllerSync
    | ControllerReport(counts: Status)

  predicate Initial(s: System) {
    && |s.versions| == 1 && s.seen == 0 && s.commits == [] && s.runs == map[]
    && s.versions[0].applied == 0
    && var dep := s.versions[0].dep;
       && dep.status.observedGeneration <= dep.generation
       && s.versions[0].basis == if dep.status.observedGeneration == dep.generation then Some(0) else None
  }

  function Last(s: System): Version
    requires s.versions != []
  { s.versions[|s.versions| - 1] }

  /** What the server says to an update of a version that is no longer the current one. */
  const CONFLICT_MESSAGE :=
    "Operation cannot be fulfilled: " + CONFLICT_TEXT + "; please apply your changes to the latest version"

  /** The server's reply to a request. A refused call has no effect on the server. */
  function Answer(s: System, run: Run, request: Request, choice: Choice): Reply
    requires s.versions != []
  {
    if request.Wait? then (if choice.refusal.Some? || run.ticks == 0 then Cancelled else Tick)
    else if request.Sort? then Sorted(choice.order)
    else if choice.refusal.Some? then Error(choice.refusal.value)
    else
      match request
      case Get => Got(Last(s).dep)
      case List => Listed(choice.listing)
      case Update(dep) =>
        if dep.resourceVersion == Last(s).dep.resourceVersion then Updated else Error(CONFLICT_MESSAGE)
  }

  /** An accepted write: status and selector stay, a changed spec gets a new generation, anything changed a new
      resource version; a write that changes nothing stores nothing. */
  function Write(s: System, author: Option<RunId>, edit: Edit, desired: Desired): System
    requires s.versions != []
  {
    var cur := Last(s);
    var changed := desired.spec != cur.dep.spec;
    if desired == DesiredOf(cur.dep) then
      s.(commits := s.commits + [Commit(author, edit, changed, |s.versions| - 1)])
    else
      var dep := cur.dep.(annotations := desired.annotations, spec := desired.spec,
                          resourceVersion := cur.dep.resourceVersion + 1,
                          generation := cur.dep.generation + if changed then 1 else 0);
      s.(versions := s.versions + [Version(dep, cur.basis, |s.commits| + 1)],
         commits := s.commits + [Commit(author, edit, changed, |s.versions|)])
  }

  /** The atomic edit a run's Update stands for. */
  function OwnEdit(run: Run): Edit
    requires run.at.Fetched? || run.at.Retrying?
  {
    match run.at
    case Retrying(_, target, _) => TemplateEdit(target.template)
    case Fetched(_) => if run.op.Scale? then ReplicasEdit(run.op.replicas) else
                       if run.op.Restart? then StampEdit(run.op.stamp) else TemplateEdit(PodTemplate(None, []))
  }

  function NextRun(s: System, run: Run, request: Request, reply: Reply): Run
    requires WellPlaced(run.op, run.at) && !run.at.Done? && request == Ask(run.op, run.at) && Fits(request, reply)
    requires s.versions != []
  {
    var looping := run.at.Retrying?;
    run.(at := Advance(run.op, run.at, reply),
         lines := run.lines + Lines(run.op, run.at, reply),
         trace := run.trace + [Exchange(request, reply)],
         ticks := if reply.Tick? && run.ticks > 0 then run.ticks - 1 else run.ticks,
         read := if reply.Got? then |s.versions| - 1 else run.read,
         attempts := if run.at.Attempt? then run.attempts + 1 else run.attempts,
         conflicts := if looping && reply.Error? && IsConflict(reply.message) then run.conflicts + 1 else run.conflicts,
         commit := if reply.Updated? then Some(|s.commits|) else run.commit,
         picked := if run.at.Arranging? then Some(Picked(run.at.base, run.at.listing, reply.order)) else run.picked)
  }

  /** The run exists, is not over, and (when it sorts) the order is a possible outcome of the sort. */
  predicate Enabled(s: System, id: RunId, choice: Choice) {
    && s.versions != [] && id in s.runs
    && WellPlaced(s.runs[id].op, s.runs[id].at) && !s.runs[id].at.Done?
    && var request := Ask(s.runs[id].op, s.runs[id].at);
       Fits(request, Answer(s, s.runs[id], request, choice))
  }

  function CallStep(s: System, id: RunId, choice: Choice): System
    requires Enabled(s, id, choice)
  {
    var run := s.runs[id];
    var request := Ask(run.op, run.at);
    var reply := Answer(s, run, request, choice);
    var s' := if reply.Updated? then Write(s, Some(id), OwnEdit(run), DesiredOf(request.dep)) else s;
    s'.(runs := s.runs[id := NextRun(s, run, request, reply)])
  }

  function Step(s: System, e: Event): (s': System)
    requires s.versions != []
    ensures s'.versions != []
  {
    match e
    case Spawn(id, op, ticks) => if id in s.runs then s else s.(runs := s.runs[id := NewRun(op, ticks)])
    case Call(id, choice) => if Enabled(s, id, choice) then CallStep(s, id, choice) else s
    case OutsideWrite(desired) => Write(s, None, OutsideEdit(desired), desired)
    case ControllerSync => s.(seen := |s.versions| - 1)
    case ControllerReport(counts) =>
      if s.seen >= |s.versions| then s else
      var status := counts.(observedGeneration := s.versions[s.seen].dep.generation);
      var dep := Last(s).dep;
      if status == dep.status then s else
      s.(versions := s.versions + [Version(dep.(status := status, resourceVersion := dep.resourceVersion + 1),
                                           Some(s.seen), |s.commits|)])
  }

  function Exec(s: System, events: seq<Event>): (s': System)
    requires s.versions != []
    ensures s'.versions != []
  {
    if events == [] then s else Step(Exec(s, events[..|events| - 1]), events[|events| - 1])
  }
}
