/** An operation together with the goroutine that forwards its log lines to the chat: a step of the operation waits
    until its lines have been handed over, and the chat side goes on by itself. */
module ChatLog {
  import opened Operations
  import opened Cluster
  import opened ClusterTheorems
  import LogPipe

  datatype Joint = Joint(system: System, pipe: LogPipe.Pipe<Line>)

  datatype JointEvent =
    | OnServer(e: Event)
    | OnPipe(p: LogPipe.Event)

  function LinesOf(s: System, id: RunId): seq<Line>
    requires id in s.runs
  { s.runs[id].lines }

  /** The operation makes its next call only when all its lines so far have been received, and closes the channel only
      when it is done. */
  predicate MayHappen(j: Joint, id: RunId, e: JointEvent) {
    && j.system.versions != [] && id in j.system.runs
    && match e
       case OnServer(event) => !(event.Call? && event.id == id) || j.pipe.sent >= |LinesOf(j.system, id)|
       case OnPipe(event) =>
         LogPipe.Enabled(LinesOf(j.system, id), j.pipe, event) && (event.Close? ==> j.system.runs[id].at.Done?)
  }

  function JointStep(j: Joint, id: RunId, forwards: Line -> bool, e: JointEvent): Joint
    requires MayHappen(j, id, e)
  {
    match e
    case OnServer(event) => j.(system := Step(j.system, event))
    case OnPipe(event) => j.(pipe := LogPipe.Step(LinesOf(j.system, id), forwards, j.pipe, event))
  }

  predicate IsJointRun(j: Joint, id: RunId, forwards: Line -> bool, es: seq<JointEvent>)
    decreases |es|
  {
    || es == []
    || (MayHappen(j, id, es[0]) && IsJointRun(JointStep(j, id, forwards, es[0]), id, forwards, es[1..]))
  }

  function JointExec(j: Joint, id: RunId, forwards: Line -> bool, es: seq<JointEvent>): Joint
    requires IsJointRun(j, id, forwards, es)
    decreases |es|
  {
    if es == [] then j else JointExec(JointStep(j, id, forwards, es[0]), id, forwards, es[1..])
  }

  /** What the cluster sees of a joint run. */
  function OnServerOnly(es: seq<JointEvent>): seq<Event> {
    if es == [] then [] else Projected(es[0]) + OnServerOnly(es[1..])
  }

  function Projected(e: JointEvent): seq<Event> { if e.OnServer? then [e.e] else [] }

  /** The steps of the channel and its receiver. */
  function PipeSteps(es: seq<JointEvent>): nat {
    if es == [] then 0 else (if es[0].OnPipe? then 1 else 0) + PipeSteps(es[1..])
  }

  // ---------- the log of a run ----------

  /** Lines are only added, and a run that is over adds none. */
  lemma StepAddsLines(s: System, e: Event, id: RunId)
    requires s.versions != [] && id in s.runs
    ensures id in Step(s, e).runs
    ensures LinesOf(s, id) <= LinesOf(Step(s, e), id)
    ensures Step(s, e).runs[id].granted == s.runs[id].granted
    ensures s.runs[id].at.Done? ==> Step(s, e).runs[id] == s.runs[id]
    ensures !(e.Call? && e.id == id) ==> Step(s, e).runs[id] == s.runs[id]
  {
    hide Lines;
    hide Advance;
  }

  /** The log of a run never loses or changes a line. */
  lemma {:induction false} LinesOnlyGrow(s0: System, events: seq<Event>, more: seq<Event>, id: RunId)
    requires s0.versions != [] && id in Exec(s0, events).runs
    ensures id in Exec(s0, events + more).runs
    ensures LinesOf(Exec(s0, events), id) <= LinesOf(Exec(s0, events + more), id)
    ensures Exec(s0, events + more).runs[id].granted == Exec(s0, events).runs[id].granted
  {
    hide Step;
    hide Exec;
    if more == [] {
      assert events + more == events;
    } else {
      var k := |more| - 1;
      LinesOnlyGrow(s0, events, more[..k], id);
      assert events + more == events + more[..k] + [more[k]];
      ExecSnoc(s0, events + more[..k], more[k]);
      StepAddsLines(Exec(s0, events + more[..k]), more[k], id);
    }
  }

  // ---------- both together ----------

  ghost predicate JointInv(j: Joint, id: RunId, forwards: Line -> bool) {
    && j.system.versions != [] && id in j.system.runs
    && LogPipe.Inv(LinesOf(j.system, id), forwards, j.pipe)
    && (j.pipe.closed ==> j.system.runs[id].at.Done?)
  }

  /** The pipe's invariant survives new lines, as long as it is open. */
  lemma PipeGrows(lines: seq<Line>, longer: seq<Line>, forwards: Line -> bool, p: LogPipe.Pipe<Line>)
    requires LogPipe.Inv(lines, forwards, p) && lines <= longer && !p.closed
    ensures LogPipe.Inv(longer, forwards, p)
  {
    assert longer[..p.sent] == lines[..p.sent];
    if p.sent > 0 {
      assert longer[..p.sent - 1] == lines[..p.sent - 1];
    }
  }

  lemma StepKeepsJoint(j: Joint, id: RunId, forwards: Line -> bool, e: JointEvent)
    requires JointInv(j, id, forwards) && MayHappen(j, id, e)
    ensures JointInv(JointStep(j, id, forwards, e), id, forwards)
  {
    hide LogPipe.Inv;
    hide Step;
    match e
    case OnServer(event) =>
      StepAddsLines(j.system, event, id);
      if !j.pipe.closed {
        PipeGrows(LinesOf(j.system, id), LinesOf(Step(j.system, event), id), forwards, j.pipe);
      }
    case OnPipe(event) => LogPipe.StepKeepsInv(LinesOf(j.system, id), forwards, j.pipe, event);
  }

  /** No step of the channel is for nothing. */
  lemma StepUsesPipe(j: Joint, id: RunId, forwards: Line -> bool, e: JointEvent)
    requires JointInv(j, id, forwards) && MayHappen(j, id, e)
    ensures id in JointStep(j, id, forwards, e).system.runs
    ensures PipeLeft(JointStep(j, id, forwards, e), id) + (if e.OnPipe? then 1 else 0) <= PipeLeft(j, id)
  {
    hide Step;
    hide LogPipe.Forwarded;
    if e.OnServer? {
      StepAddsLines(j.system, e.e, id);
    }
  }

  /** Steps the channel has left, beyond two for every line still to come. */
  function PipeLeft(j: Joint, id: RunId): int
    requires id in j.system.runs
  { LogPipe.Left(LinesOf(j.system, id), j.pipe) - 2 * |LinesOf(j.system, id)| }

  lemma {:induction false} PipeStepsAreBounded(j: Joint, id: RunId, forwards: Line -> bool, es: seq<JointEvent>)
    requires JointInv(j, id, forwards) && IsJointRun(j, id, forwards, es)
    ensures id in JointExec(j, id, forwards, es).system.runs
    ensures PipeLeft(JointExec(j, id, forwards, es), id) + PipeSteps(es) <= PipeLeft(j, id)
    decreases |es|
  {
    hide MayHappen;
    hide JointStep;
    hide PipeLeft;
    hide LogPipe.Inv;
    if es != [] {
      StepKeepsJoint(j, id, forwards, es[0]);
      StepUsesPipe(j, id, forwards, es[0]);
      PipeStepsAreBounded(JointStep(j, id, forwards, es[0]), id, forwards, es[1..]);
    }
  }

  lemma {:induction false} ExecKeepsJoint(j: Joint, id: RunId, forwards: Line -> bool, es: seq<JointEvent>)
    requires JointInv(j, id, forwards) && IsJointRun(j, id, forwards, es)
    ensures JointInv(JointExec(j, id, forwards, es), id, forwards)
    decreases |es|
  {
    hide JointInv;
    hide MayHappen;
    hide JointStep;
    if es != [] {
      StepKeepsJoint(j, id, forwards, es[0]);
      ExecKeepsJoint(JointStep(j, id, forwards, es[0]), id, forwards, es[1..]);
    }
  }

  lemma JointStepIsExec(s0: System, events: seq<Event>, pipe: LogPipe.Pipe<Line>, id: RunId, forwards: Line -> bool,
                        e: JointEvent)
    requires s0.versions != [] && MayHappen(Joint(Exec(s0, events), pipe), id, e)
    ensures JointStep(Joint(Exec(s0, events), pipe), id, forwards, e).system == Exec(s0, events + Projected(e))
  {
    hide Step;
    if e.OnServer? {
      ExecSnoc(s0, events, e.e);
    } else {
      assert events + Projected(e) == events;
    }
  }

  /** Waiting for the chat changes nothing about what the cluster and the operation can do. */
  lemma {:induction false} JointIsExec(s0: System, events: seq<Event>, pipe: LogPipe.Pipe<Line>, id: RunId,
                                       forwards: Line -> bool, es: seq<JointEvent>)
    requires s0.versions != [] && IsJointRun(Joint(Exec(s0, events), pipe), id, forwards, es)
    ensures JointExec(Joint(Exec(s0, events), pipe), id, forwards, es).system == Exec(s0, events + OnServerOnly(es))
    decreases |es|
  {
    hide Exec;
    hide JointStep;
    hide MayHappen;
    hide Projected;
    if es == [] {
      assert events + OnServerOnly(es) == events;
    } else {
      var now := events + Projected(es[0]);
      var next := JointStep(Joint(Exec(s0, events), pipe), id, forwards, es[0]);
      JointStepIsExec(s0, events, pipe, id, forwards, es[0]);
      assert next == Joint(Exec(s0, now), next.pipe);
      JointIsExec(s0, now, next.pipe, id, forwards, es[1..]);
      assert events + OnServerOnly(es) == now + OnServerOnly(es[1..]);
    }
  }

  /** The start of a joint run: a new run of the operation, in a cluster with any past, and an empty channel. */
  function Opened(s0: System, past: seq<Event>, id: RunId, op: Op, ticks: nat): Joint
    requires s0.versions != []
  { Joint(Exec(s0, past + [Spawn(id, op, ticks)]), LogPipe.Start()) }

  /** The operation's next call can be made, and resolved like this. */
  predicate CanCall(j: Joint, id: RunId, c: Choice) {
    Enabled(j.system, id, c) && MayHappen(j, id, OnServer(Call(id, c)))
  }

  /** What has been received is a prefix of the lines, the chat shows the forwarded part of it except at most the last
      line received, and all there is once the goroutine has ended. */
  predicate ShowsLines(lines: seq<Line>, forwards: Line -> bool, p: LogPipe.Pipe<Line>) {
    && p.received <= lines
    && LogPipe.Forwarded(p.received, forwards)
       == p.shown + (if p.consumer.Forwarding? && forwards(p.consumer.line) then [p.consumer.line] else [])
    && (p.consumer.Exited? ==> p.shown == LogPipe.Forwarded(lines, forwards))
  }

  /** The chat log of an operation. In every interleaving of the operation, the forwarding goroutine, other runs,
      other writers and the controller: the cluster's part is an ordinary interleaving, so everything proved about runs
      holds; the chat shows the operation's lines in order; when the goroutine has ended, the operation is over and all
      its forwarded lines are in the chat. Until then the channel can move or the operation can make its next call, and
      both can do so only a limited number of times. */
  lemma ChatFollowsTheRun(s0: System, past: seq<Event>, id: RunId, op: Op, ticks: nat, forwards: Line -> bool,
                          es: seq<JointEvent>)
    requires Initial(s0) && id !in Exec(s0, past).runs
    requires IsJointRun(Opened(s0, past, id, op, ticks), id, forwards, es)
    ensures var j := JointExec(Opened(s0, past, id, op, ticks), id, forwards, es);
            && j.system == Exec(s0, past + [Spawn(id, op, ticks)] + OnServerOnly(es))
            && id in j.system.runs && ShowsLines(LinesOf(j.system, id), forwards, j.pipe)
            && (j.pipe.consumer.Exited? ==> j.system.runs[id].at.Done?)
            && (j.pipe.consumer.Exited? || (exists c :: CanCall(j, id, c)) || exists e :: MayHappen(j, id, OnPipe(e)))
            && PipeSteps(es) <= 2 * |LinesOf(j.system, id)| + 2 && |j.system.runs[id].trace| <= 2 * ticks + 15
  {
    hide JointInv;
    hide ShowsLines;
    hide CanCall;
    hide MayHappen;
    hide LogPipe.Left;
    hide Enabled;
    hide Exec;
    var spawned := past + [Spawn(id, op, ticks)];
    var j := JointExec(Opened(s0, past, id, op, ticks), id, forwards, es);
    OpenedOk(s0, past, id, op, ticks, forwards);
    ExecKeepsJoint(Opened(s0, past, id, op, ticks), id, forwards, es);
    JointIsExec(s0, spawned, LogPipe.Start(), id, forwards, es);
    RunGoesOn(s0, past, id, op, ticks, OnServerOnly(es));
    PipeStepsAreBounded(Opened(s0, past, id, op, ticks), id, forwards, es);
    JointNow(j, id, forwards);
  }

  lemma RunGoesOn(s0: System, past: seq<Event>, id: RunId, op: Op, ticks: nat, more: seq<Event>)
    requires Initial(s0) && id !in Exec(s0, past).runs
    ensures var s := Exec(s0, past + [Spawn(id, op, ticks)] + more);
            && id in s.runs && |s.runs[id].trace| <= 2 * ticks + 15
            && (s.runs[id].at.Done? || exists c :: Enabled(s, id, c))
  {
    hide Enabled;
    var spawned := past + [Spawn(id, op, ticks)];
    ExecSnoc(s0, past, Spawn(id, op, ticks));
    hide Exec;
    LinesOnlyGrow(s0, spawned, more, id);
    NoRunIsStuck(s0, spawned + more, id);
    StepsAreBounded(s0, spawned + more, id);
  }

  lemma OpenedOk(s0: System, past: seq<Event>, id: RunId, op: Op, ticks: nat, forwards: Line -> bool)
    requires Initial(s0) && id !in Exec(s0, past).runs
    ensures JointInv(Opened(s0, past, id, op, ticks), id, forwards)
    ensures PipeLeft(Opened(s0, past, id, op, ticks), id) == 2
    ensures Opened(s0, past, id, op, ticks).system.runs[id].granted == ticks
  {
    ExecSnoc(s0, past, Spawn(id, op, ticks));
  }

  lemma JointNow(j: Joint, id: RunId, forwards: Line -> bool)
    requires JointInv(j, id, forwards)
    requires j.system.runs[id].at.Done? || exists c :: Enabled(j.system, id, c)
    ensures id in j.system.runs
    ensures ShowsLines(LinesOf(j.system, id), forwards, j.pipe)
    ensures j.pipe.consumer.Exited? ==> j.system.runs[id].at.Done?
    ensures j.pipe.consumer.Exited? || (exists c :: CanCall(j, id, c)) || exists e :: MayHappen(j, id, OnPipe(e))
  {
    ReceivedSoFar(LinesOf(j.system, id), forwards, j.pipe);
    if j.pipe.consumer.Forwarding? {
      assert MayHappen(j, id, OnPipe(LogPipe.Forward));
    } else if j.pipe.closed {
      assert !j.pipe.consumer.Exited? ==> MayHappen(j, id, OnPipe(LogPipe.Exit));
    } else if j.pipe.sent < |LinesOf(j.system, id)| {
      assert MayHappen(j, id, OnPipe(LogPipe.Handover));
    } else if j.system.runs[id].at.Done? {
      assert MayHappen(j, id, OnPipe(LogPipe.Event.Close));
    } else {
      var c :| Enabled(j.system, id, c);
      assert CanCall(j, id, c);
    }
  }

  lemma ReceivedSoFar(lines: seq<Line>, forwards: Line -> bool, p: LogPipe.Pipe<Line>)
    requires LogPipe.Inv(lines, forwards, p)
    ensures ShowsLines(lines, forwards, p)
  {
    assert lines[..|lines|] == lines;
    if p.consumer.Forwarding? {
      assert lines[..p.sent][..p.sent - 1] == lines[..p.sent - 1];
    }
  }
}
