/** The eight goroutines of the status dashboard: a shared map under one mutex, joined by a wait group. Every
    interleaving ends in the records of PodMetrics. */
module Dashboard {
  import opened Wrappers
  import opened PodMetrics

  /** names: the pods of the job; order: the worker each goroutine runs, in the order they are launched. */
  datatype Config = Config(names: set<string>, num: Numerics, responses: Worker -> Response, order: seq<Worker>)

  const GOROUTINES := 8

  /** The six entries of the query map in any order, then the phase query, then the OOM query. */
  predicate ValidConfig(cfg: Config) {
    && |cfg.order| == GOROUTINES && cfg.order[6] == Phase && cfg.order[7] == OOM
    && AllDifferent(cfg.order) && (forall w: Worker :: w in cfg.order)
  }

  predicate AllDifferent(workers: seq<Worker>) {
    forall i, j :: 0 <= i < j < |workers| ==> workers[i] != workers[j]
  }

  datatype Place =
    | Idle                    // not launched
    | Querying                // waiting for the response
    | Locking                 // about to lock the mutex
    | Updating(i: nat)        // holds the mutex, next row is i
    | Leaving                 // past the deferred Unlock, about to run the deferred Done
    | Finished

  datatype Main =
    | Launching(k: nat, added: bool)   // next is wg.Add(1) for goroutine k, or its go statement
    | Joining                          // in wg.Wait
    | Collecting                       // past wg.Wait

  datatype State = State(main: Main, place: seq<Place>, holder: Option<nat>, counter: int, pods: Board)

  /** A step of the main goroutine, or of goroutine g. */
  datatype Action = MainStep | Go(g: nat)

  function InitialBoard(names: set<string>): Board { map n | n in names :: Blank(n) }

  function InitialState(cfg: Config): State {
    State(Launching(0, false), seq(GOROUTINES, g => Idle), None, 0, InitialBoard(cfg.names))
  }

  function Rows(cfg: Config, g: nat): seq<Row>
    requires g < |cfg.order|
  { RowsOf(cfg.responses(cfg.order[g])) }

  predicate Sized(cfg: Config, s: State) { |cfg.order| == GOROUTINES && |s.place| == GOROUTINES }

  predicate Enabled(cfg: Config, s: State, a: Action) {
    Sized(cfg, s) &&
    match a
    case MainStep => s.main.Launching? || (s.main.Joining? && s.counter == 0)
    case Go(g) =>
      g < GOROUTINES && s.place[g] != Idle && s.place[g] != Finished && (s.place[g] == Locking ==> s.holder.None?)
  }

  function Step(cfg: Config, s: State, a: Action): (s': State)
    requires Enabled(cfg, s, a)
    ensures Sized(cfg, s')
  {
    match a
    case MainStep =>
      (match s.main
       case Launching(k, added) =>
         if k >= GOROUTINES then s.(main := Joining)
         else if !added then s.(counter := s.counter + 1, main := Launching(k, true))
         else s.(place := s.place[k := Querying], main := Launching(k + 1, false))
       case _ => s.(main := Collecting))
    case Go(g) =>
      match s.place[g]
      case Querying => s.(place := s.place[g := if cfg.responses(cfg.order[g]).Vector? then Locking else Leaving])
      case Locking => s.(holder := Some(g), place := s.place[g := Updating(0)])
      case Updating(i) =>
        if i < |Rows(cfg, g)| then s.(pods := Apply(cfg.num, cfg.order[g], Rows(cfg, g)[i], s.pods),
                                      place := s.place[g := Updating(i + 1)])
        else s.(holder := None, place := s.place[g := Leaving])
      case Leaving => s.(counter := s.counter - 1, place := s.place[g := Finished])
  }

  /** A run: every action is enabled when it is taken. */
  predicate IsRun(cfg: Config, s: State, actions: seq<Action>)
    decreases |actions|
  {
    actions == [] || (Enabled(cfg, s, actions[0]) && IsRun(cfg, Step(cfg, s, actions[0]), actions[1..]))
  }

  function Exec(cfg: Config, s: State, actions: seq<Action>): State
    requires IsRun(cfg, s, actions)
    decreases |actions|
  {
    if actions == [] then s else Exec(cfg, Step(cfg, s, actions[0]), actions[1..])
  }

  // ---------- the invariant ----------

  /** Launched and not past its Done. */
  predicate Live(p: Place) { !p.Idle? && !p.Finished? }

  function LiveCount(places: seq<Place>): nat {
    if places == [] then 0
    else LiveCount(places[..|places| - 1]) + if Live(places[|places| - 1]) then 1 else 0
  }

  /** How many of its rows goroutine g has processed. */
  function DoneAt(cfg: Config, g: nat, p: Place): nat
    requires g < |cfg.order|
  {
    match p
    case Updating(i) => i
    case Leaving | Finished => |Rows(cfg, g)|
    case _ => 0
  }

  /** The goroutine that runs the worker. */
  function GoroutineOf(workers: seq<Worker>, w: Worker): (g: nat)
    requires w in workers
    ensures g < |workers| && workers[g] == w
  {
    if workers[0] == w then 0 else GoroutineOf(workers[1..], w) + 1
  }

  function Done(cfg: Config, s: State): Worker -> nat
    requires Sized(cfg, s)
  {
    w => if w in cfg.order then DoneAt(cfg, GoroutineOf(cfg.order, w), s.place[GoroutineOf(cfg.order, w)]) else 0
  }

  /** How many goroutines have been launched. */
  function Launched(m: Main): nat { if m.Launching? then m.k else GOROUTINES }

  predicate Adding(m: Main) { m.Launching? && m.added }

  /** The wait group counts the goroutines that are launched, or about to be, and not done. */
  ghost predicate Bookkeeping(s: State) {
    && |s.place| == GOROUTINES && Launched(s.main) <= GOROUTINES && (Adding(s.main) ==> s.main.k < GOROUTINES)
    && (forall g :: 0 <= g < GOROUTINES ==> (s.place[g] == Idle <==> g >= Launched(s.main)))
    && s.counter == LiveCount(s.place) + (if Adding(s.main) then 1 else 0)
    && (s.main == Collecting ==> s.counter == 0)
  }

  ghost predicate Exclusion(cfg: Config, s: State)
    requires Sized(cfg, s)
  {
    && (s.holder.Some? ==> s.holder.value < GOROUTINES)
    && forall g :: 0 <= g < GOROUTINES ==>
      && (s.holder == Some(g) <==> s.place[g].Updating?)
      && (s.place[g].Updating? ==> s.place[g].i <= |Rows(cfg, g)|)
      && (s.place[g] == Leaving || s.place[g] == Finished || s.place[g] == Querying || s.place[g] == Idle
          || cfg.responses(cfg.order[g]).Vector?)
  }

  ghost predicate Records(cfg: Config, s: State)
    requires Sized(cfg, s)
  {
    && Within(cfg.responses, Done(cfg, s))
    && s.pods.Keys == cfg.names
    && forall p :: p in cfg.names ==> s.pods[p] == Record(cfg.num, cfg.responses, Done(cfg, s), p)
  }

  ghost predicate Inv(cfg: Config, s: State) {
    ValidConfig(cfg) && Bookkeeping(s) && Exclusion(cfg, s) && Records(cfg, s)
  }

  lemma {:induction false} LiveCountUpdate(places: seq<Place>, g: nat, p: Place)
    requires g < |places|
    ensures LiveCount(places[g := p])
            == LiveCount(places) - (if Live(places[g]) then 1 else 0) + (if Live(p) then 1 else 0)
  {
    var k := |places| - 1;
    if g < k {
      LiveCountUpdate(places[..k], g, p);
      assert places[g := p][..k] == places[..k][g := p];
    } else {
      assert places[g := p][..k] == places[..k];
    }
  }

  lemma {:induction false} LiveCountZero(places: seq<Place>)
    ensures LiveCount(places) == 0 <==> forall g :: 0 <= g < |places| ==> !Live(places[g])
  {
    if places != [] {
      LiveCountZero(places[..|places| - 1]);
    }
  }

  lemma {:induction false} GoroutineOfAt(workers: seq<Worker>, g: nat)
    requires g < |workers| && AllDifferent(workers)
    ensures GoroutineOf(workers, workers[g]) == g
  {
  }

  lemma BlankRecord(num: Numerics, responses: Worker -> Response, done: Worker -> nat, pod: string)
    requires forall w :: done(w) == 0
    ensures Within(responses, done) && Record(num, responses, done, pod) == Blank(pod)
  {
  }

  lemma InitialRecords(cfg: Config)
    requires ValidConfig(cfg)
    ensures Records(cfg, InitialState(cfg))
  {
    hide Record;
    var done := Done(cfg, InitialState(cfg));
    assert forall w :: done(w) == 0;
    BlankRecord(cfg.num, cfg.responses, done, "");
    forall p | p in cfg.names ensures InitialBoard(cfg.names)[p] == Record(cfg.num, cfg.responses, done, p) {
      BlankRecord(cfg.num, cfg.responses, done, p);
    }
  }

  lemma InitialInv(cfg: Config)
    requires ValidConfig(cfg)
    ensures Inv(cfg, InitialState(cfg))
  {
    hide Records;
    LiveCountZero(InitialState(cfg).place);
    InitialRecords(cfg);
  }

  lemma StepKeepsBookkeeping(cfg: Config, s: State, a: Action)
    requires Bookkeeping(s) && Enabled(cfg, s, a)
    ensures Bookkeeping(Step(cfg, s, a))
  {
    var s' := Step(cfg, s, a);
    match a
    case MainStep =>
      if Adding(s.main) {
        LiveCountUpdate(s.place, s.main.k, Querying);
      }
    case Go(g) =>
      LiveCountUpdate(s.place, g, s'.place[g]);
      assert s'.place == s.place[g := s'.place[g]];
  }

  lemma StepKeepsExclusion(cfg: Config, s: State, a: Action)
    requires Bookkeeping(s) && Enabled(cfg, s, a) && Exclusion(cfg, s)
    ensures Exclusion(cfg, Step(cfg, s, a))
  {
  }

  /** Processing one row moves exactly that worker's column of every record. */
  lemma UpdateKeepsRecords(cfg: Config, s: State, g: nat)
    requires ValidConfig(cfg) && Sized(cfg, s) && Records(cfg, s)
    requires g < GOROUTINES && s.place[g].Updating? && s.place[g].i < |Rows(cfg, g)|
    ensures Records(cfg, Step(cfg, s, Go(g)))
  {
    hide Record;
    hide Parse;
    hide ValidConfig;
    UpdateMovesDone(cfg, s, g);
    var done, done' := Done(cfg, s), Done(cfg, Step(cfg, s, Go(g)));
    hide Done;
    forall p | p in cfg.names
      ensures Step(cfg, s, Go(g)).pods[p] == Record(cfg.num, cfg.responses, done', p)
    {
      RecordStep(cfg.num, cfg.responses, done, done', cfg.order[g], p);
    }
  }

  lemma UpdateMovesDone(cfg: Config, s: State, g: nat)
    requires ValidConfig(cfg) && Enabled(cfg, s, Go(g)) && s.place[g].Updating? && s.place[g].i < |Rows(cfg, g)|
    requires Within(cfg.responses, Done(cfg, s))
    ensures var done, done' := Done(cfg, s), Done(cfg, Step(cfg, s, Go(g)));
            && done(cfg.order[g]) == s.place[g].i && done'(cfg.order[g]) == s.place[g].i + 1
            && (forall v :: v != cfg.order[g] ==> done'(v) == done(v))
            && Within(cfg.responses, done')
  {
    DoneIsLocal(cfg, s, Step(cfg, s, Go(g)), g);
    hide Apply;
    hide Done;
    hide ValidConfig;
  }

  /** Moving one goroutine changes the progress of its own worker only. */
  lemma DoneIsLocal(cfg: Config, s: State, s': State, g: nat)
    requires ValidConfig(cfg) && Sized(cfg, s) && Sized(cfg, s') && g < GOROUTINES
    requires s'.place == s.place[g := s'.place[g]]
    ensures Done(cfg, s)(cfg.order[g]) == DoneAt(cfg, g, s.place[g])
    ensures Done(cfg, s')(cfg.order[g]) == DoneAt(cfg, g, s'.place[g])
    ensures forall v :: v != cfg.order[g] ==> Done(cfg, s')(v) == Done(cfg, s)(v)
  {
    hide DoneAt;
    GoroutineOfAt(cfg.order, g);
  }

  lemma OtherStepsKeepCount(cfg: Config, s: State, a: Action, g: nat)
    requires Bookkeeping(s) && Enabled(cfg, s, a) && Exclusion(cfg, s) && g < GOROUTINES
    requires a.Go? && s.place[a.g].Updating? ==> s.place[a.g].i == |Rows(cfg, a.g)|
    ensures Step(cfg, s, a).pods == s.pods
    ensures DoneAt(cfg, g, Step(cfg, s, a).place[g]) == DoneAt(cfg, g, s.place[g])
  {
    hide Apply;
  }

  lemma OtherStepsKeepDone(cfg: Config, s: State, a: Action)
    requires Bookkeeping(s) && Enabled(cfg, s, a) && Exclusion(cfg, s)
    requires a.Go? && s.place[a.g].Updating? ==> s.place[a.g].i == |Rows(cfg, a.g)|
    ensures Step(cfg, s, a).pods == s.pods
    ensures forall v :: Done(cfg, Step(cfg, s, a))(v) == Done(cfg, s)(v)
  {
    hide Record;
    hide Apply;
    hide DoneAt;
    OtherStepsKeepCount(cfg, s, a, 0);
    forall v ensures Done(cfg, Step(cfg, s, a))(v) == Done(cfg, s)(v) {
      if v in cfg.order {
        OtherStepsKeepCount(cfg, s, a, GoroutineOf(cfg.order, v));
      }
    }
  }

  lemma StepKeepsRecords(cfg: Config, s: State, a: Action)
    requires Inv(cfg, s) && Enabled(cfg, s, a)
    ensures Records(cfg, Step(cfg, s, a))
  {
    hide Record;
    hide Parse;
    hide Apply;
    if a.Go? && s.place[a.g].Updating? && s.place[a.g].i < |Rows(cfg, a.g)| {
      UpdateKeepsRecords(cfg, s, a.g);
    } else {
      OtherStepsKeepDone(cfg, s, a);
      forall p | p in cfg.names ensures s.pods[p] == Record(cfg.num, cfg.responses, Done(cfg, Step(cfg, s, a)), p) {
        RecordSame(cfg.num, cfg.responses, Done(cfg, s), Done(cfg, Step(cfg, s, a)), p);
      }
    }
  }

  lemma StepKeepsInv(cfg: Config, s: State, a: Action)
    requires Inv(cfg, s) && Enabled(cfg, s, a)
    ensures Inv(cfg, Step(cfg, s, a))
  {
    StepKeepsBookkeeping(cfg, s, a);
    StepKeepsExclusion(cfg, s, a);
    StepKeepsRecords(cfg, s, a);
  }

  lemma {:induction false} ExecInv(cfg: Config, s: State, actions: seq<Action>)
    requires Inv(cfg, s) && IsRun(cfg, s, actions)
    ensures Inv(cfg, Exec(cfg, s, actions))
    decreases |actions|
  {
    if actions != [] {
      StepKeepsInv(cfg, s, actions[0]);
      ExecInv(cfg, Step(cfg, s, actions[0]), actions[1..]);
    }
  }

  // ---------- results over all interleavings ----------

  /** At every moment at most one goroutine is updating the map, it is the one holding the mutex, and the wait group
      counts the goroutines that are launched (or about to be) and not done. */
  lemma MutualExclusion(cfg: Config, actions: seq<Action>)
    requires ValidConfig(cfg) && IsRun(cfg, InitialState(cfg), actions)
    ensures var s := Exec(cfg, InitialState(cfg), actions);
            && |s.place| == GOROUTINES
            && (forall g, h :: 0 <= g < h < GOROUTINES ==> !(s.place[g].Updating? && s.place[h].Updating?))
            && (forall g :: 0 <= g < GOROUTINES ==> (s.holder == Some(g) <==> s.place[g].Updating?))
            && s.counter == LiveCount(s.place) + (if Adding(s.main) then 1 else 0)
  {
    hide Records;
    InitialInv(cfg);
    ExecInv(cfg, InitialState(cfg), actions);
  }

  /** When Wait returns every goroutine is finished, the mutex is free and no goroutine can take another step: nothing
      writes the map while it is collected. */
  lemma Barrier(cfg: Config, actions: seq<Action>)
    requires ValidConfig(cfg) && IsRun(cfg, InitialState(cfg), actions)
    requires Exec(cfg, InitialState(cfg), actions).main == Collecting
    ensures var s := Exec(cfg, InitialState(cfg), actions);
            && (forall p :: p in s.place ==> p == Finished)
            && (forall g :: 0 <= g < GOROUTINES ==> s.holder != Some(g))
            && (forall a :: !Enabled(cfg, s, a))
  {
    hide Record;
    hide Records;
    InitialInv(cfg);
    ExecInv(cfg, InitialState(cfg), actions);
    LiveCountZero(Exec(cfg, InitialState(cfg), actions).place);
  }

  /** The specification: one worker after another, in the given order. */
  function Sequential(cfg: Config, workers: seq<Worker>, board: Board): (b: Board)
    ensures b.Keys == board.Keys
  {
    if workers == [] then board
    else
      var w := workers[|workers| - 1];
      ApplyRows(cfg.num, w, RowsOf(cfg.responses(w)), Sequential(cfg, workers[..|workers| - 1], board))
  }

  function DoneBy(cfg: Config, workers: seq<Worker>): (done: Worker -> nat)
    ensures Within(cfg.responses, done)
  {
    w => if w in workers then |RowsOf(cfg.responses(w))| else 0
  }

  /** Progress where worker w has done n rows and the others what they had. */
  function With(done: Worker -> nat, w: Worker, n: nat): Worker -> nat {
    v => if v == w then n else done(v)
  }

  lemma {:induction false} ApplyRowsIsRecord(cfg: Config, w: Worker, done: Worker -> nat, n: nat, board: Board,
                                             pod: string)
    requires Within(cfg.responses, done) && done(w) == 0 && n <= |RowsOf(cfg.responses(w))|
    requires pod in board && board[pod] == Record(cfg.num, cfg.responses, done, pod)
    ensures Within(cfg.responses, With(done, w, n))
    ensures ApplyRows(cfg.num, w, RowsOf(cfg.responses(w))[..n], board)[pod]
            == Record(cfg.num, cfg.responses, With(done, w, n), pod)
  {
    hide Record;
    hide Parse;
    var rows := RowsOf(cfg.responses(w));
    if n == 0 {
      RecordSame(cfg.num, cfg.responses, done, With(done, w, 0), pod);
    } else {
      ApplyRowsIsRecord(cfg, w, done, n - 1, board, pod);
      RecordStep(cfg.num, cfg.responses, With(done, w, n - 1), With(done, w, n), w, pod);
      assert rows[..n][..n - 1] == rows[..n - 1];
    }
  }

  lemma {:induction false} SequentialIsRecord(cfg: Config, workers: seq<Worker>, pod: string)
    requires pod in cfg.names && AllDifferent(workers)
    ensures Sequential(cfg, workers, InitialBoard(cfg.names))[pod]
            == Record(cfg.num, cfg.responses, DoneBy(cfg, workers), pod)
  {
    hide Record;
    hide ApplyRows;
    if workers == [] {
      BlankRecord(cfg.num, cfg.responses, DoneBy(cfg, []), pod);
    } else {
      var front, w := workers[..|workers| - 1], workers[|workers| - 1];
      var n := |RowsOf(cfg.responses(w))|;
      SequentialIsRecord(cfg, front, pod);
      ApplyRowsIsRecord(cfg, w, DoneBy(cfg, front), n, Sequential(cfg, front, InitialBoard(cfg.names)), pod);
      assert RowsOf(cfg.responses(w))[..n] == RowsOf(cfg.responses(w));
      assert forall v :: v in workers <==> v in front || v == w;
      RecordSame(cfg.num, cfg.responses, With(DoneBy(cfg, front), w, n), DoneBy(cfg, workers), pod);
    }
  }

  lemma AllAreDone(cfg: Config, s: State)
    requires ValidConfig(cfg) && Sized(cfg, s) && forall g :: 0 <= g < GOROUTINES ==> s.place[g] == Finished
    ensures forall w :: Done(cfg, s)(w) == Full(cfg.responses)(w)
  {
    forall w ensures Done(cfg, s)(w) == Full(cfg.responses)(w) {
      assert s.place[GoroutineOf(cfg.order, w)] == Finished;
    }
  }

  lemma CollectedRecord(cfg: Config, s: State, p: string)
    requires ValidConfig(cfg) && Bookkeeping(s) && Records(cfg, s) && s.main == Collecting && p in cfg.names
    ensures s.pods[p] == FinalRecord(cfg.num, cfg.responses, p)
  {
    hide Record;
    hide Done;
    hide Within;
    LiveCountZero(s.place);
    AllAreDone(cfg, s);
    RecordSame(cfg.num, cfg.responses, Done(cfg, s), Full(cfg.responses), p);
  }

  /** What is collected after any interleaving and any launch order: one record for each pod of the job, its final
      record. */
  lemma {:induction false} CollectedRecords(cfg: Config, actions: seq<Action>)
    requires ValidConfig(cfg) && IsRun(cfg, InitialState(cfg), actions)
    requires Exec(cfg, InitialState(cfg), actions).main == Collecting
    ensures var pods := Exec(cfg, InitialState(cfg), actions).pods;
            && pods.Keys == cfg.names
            && forall p :: p in cfg.names ==> pods[p] == FinalRecord(cfg.num, cfg.responses, p)
  {
    hide Record;
    InitialInv(cfg);
    ExecInv(cfg, InitialState(cfg), actions);
    forall p | p in cfg.names
      ensures Exec(cfg, InitialState(cfg), actions).pods[p] == FinalRecord(cfg.num, cfg.responses, p)
    {
      CollectedRecord(cfg, Exec(cfg, InitialState(cfg), actions), p);
    }
  }

  /** Confluence: that is the map obtained by running all the workers one after another, in any order. */
  lemma {:induction false} Confluence(cfg: Config, actions: seq<Action>, workers: seq<Worker>)
    requires ValidConfig(cfg) && IsRun(cfg, InitialState(cfg), actions)
    requires Exec(cfg, InitialState(cfg), actions).main == Collecting
    requires AllDifferent(workers) && forall w: Worker :: w in workers
    ensures Exec(cfg, InitialState(cfg), actions).pods == Sequential(cfg, workers, InitialBoard(cfg.names))
  {
    hide Record;
    CollectedRecords(cfg, actions);
    forall p | p in cfg.names
      ensures Sequential(cfg, workers, InitialBoard(cfg.names))[p] == FinalRecord(cfg.num, cfg.responses, p)
    {
      SequentialIsRecord(cfg, workers, p);
      RecordSame(cfg.num, cfg.responses, DoneBy(cfg, workers), Full(cfg.responses), p);
    }
  }

  /** Ready and OOMKilled only ever rise. */
  lemma FlagsOnlyRise(cfg: Config, actions: seq<Action>, a: Action, p: string)
    requires ValidConfig(cfg) && IsRun(cfg, InitialState(cfg), actions) && p in cfg.names
    requires Enabled(cfg, Exec(cfg, InitialState(cfg), actions), a)
    ensures var s := Exec(cfg, InitialState(cfg), actions);
            var s' := Step(cfg, s, a);
            && p in s.pods && p in s'.pods
            && (s.pods[p].ready ==> s'.pods[p].ready) && (s.pods[p].oomKilled ==> s'.pods[p].oomKilled)
  {
    var s := Exec(cfg, InitialState(cfg), actions);
    InitialInv(cfg);
    ExecInv(cfg, InitialState(cfg), actions);
    assert p in s.pods.Keys;
    RiseByStep(cfg, s, a, p);
  }

  lemma RiseByStep(cfg: Config, s: State, a: Action, p: string)
    requires Enabled(cfg, s, a) && p in s.pods
    ensures var s' := Step(cfg, s, a);
            p in s'.pods && (s.pods[p].ready ==> s'.pods[p].ready) && (s.pods[p].oomKilled ==> s'.pods[p].oomKilled)
  {
  }

  // ---------- no interleaving gets stuck or goes on for ever ----------

  /** Until Wait has returned somebody can take a step. */
  lemma Progress(cfg: Config, s: State)
    requires Inv(cfg, s) && s.main != Collecting
    ensures exists a :: Enabled(cfg, s, a)
  {
    if s.main.Launching? || s.counter == 0 {
      assert Enabled(cfg, s, MainStep);
    } else {
      LiveCountZero(s.place);
      var g :| 0 <= g < GOROUTINES && Live(s.place[g]);
      if s.place[g] == Locking && s.holder.Some? {
        assert Enabled(cfg, s, Go(s.holder.value));
      } else {
        assert Enabled(cfg, s, Go(g));
      }
    }
  }

  function StepsLeft(cfg: Config, g: nat, p: Place): nat
    requires g < |cfg.order|
  {
    match p
    case Idle => |Rows(cfg, g)| + 5
    case Querying => |Rows(cfg, g)| + 4
    case Locking => |Rows(cfg, g)| + 3
    case Updating(i) => if i <= |Rows(cfg, g)| then |Rows(cfg, g)| - i + 2 else 2
    case Leaving => 1
    case Finished => 0
  }

  function MainLeft(m: Main): nat {
    match m
    case Launching(k, added) => if k < GOROUTINES then 2 * (GOROUTINES - k) + (if added then 1 else 2) else 2
    case Joining => 1
    case Collecting => 0
  }

  /** Steps left to the first n goroutines. */
  function WorkLeft(cfg: Config, places: seq<Place>, n: nat): nat
    requires n <= |cfg.order| && n <= |places|
  {
    if n == 0 then 0 else WorkLeft(cfg, places, n - 1) + StepsLeft(cfg, n - 1, places[n - 1])
  }

  lemma {:induction false} WorkUpdate(cfg: Config, places: seq<Place>, g: nat, p: Place, n: nat)
    requires n <= |cfg.order| && n <= |places| && g < |places| && g < |cfg.order|
    ensures WorkLeft(cfg, places[g := p], n)
            == WorkLeft(cfg, places, n) + if g < n then StepsLeft(cfg, g, p) - StepsLeft(cfg, g, places[g]) else 0
  {
    if n > 0 {
      WorkUpdate(cfg, places, g, p, n - 1);
    }
  }

  function Left(cfg: Config, s: State): nat
    requires Sized(cfg, s)
  { WorkLeft(cfg, s.place, GOROUTINES) + MainLeft(s.main) }

  lemma GoroutineShrinks(cfg: Config, s: State, g: nat)
    requires Enabled(cfg, s, Go(g))
    ensures var s' := Step(cfg, s, Go(g));
            && s'.main == s.main && |s'.place| == |s.place| && s'.place == s.place[g := s'.place[g]]
            && StepsLeft(cfg, g, s'.place[g]) < StepsLeft(cfg, g, s.place[g])
  {
    hide Apply;
  }

  lemma MainShrinks(cfg: Config, s: State)
    requires Bookkeeping(s) && Enabled(cfg, s, MainStep)
    ensures Left(cfg, Step(cfg, s, MainStep)) < Left(cfg, s)
  {
    hide WorkLeft;
    if Adding(s.main) {
      WorkUpdate(cfg, s.place, s.main.k, Querying, GOROUTINES);
    }
  }

  lemma StepShrinks(cfg: Config, s: State, a: Action)
    requires Bookkeeping(s) && Enabled(cfg, s, a)
    ensures Sized(cfg, Step(cfg, s, a)) && Left(cfg, Step(cfg, s, a)) < Left(cfg, s)
  {
    match a
    case MainStep => MainShrinks(cfg, s);
    case Go(g) =>
      hide WorkLeft;
      hide StepsLeft;
      hide Bookkeeping;
      GoroutineShrinks(cfg, s, g);
      WorkUpdate(cfg, s.place, g, Step(cfg, s, a).place[g], GOROUTINES);
  }

  /** No run is longer than the work there is, and one that cannot be continued has collected. */
  lemma {:induction false} RunsAreBounded(cfg: Config, s: State, actions: seq<Action>)
    requires Inv(cfg, s) && IsRun(cfg, s, actions)
    ensures Sized(cfg, Exec(cfg, s, actions)) && |actions| + Left(cfg, Exec(cfg, s, actions)) <= Left(cfg, s)
    ensures (forall a :: !Enabled(cfg, Exec(cfg, s, actions), a)) ==> Exec(cfg, s, actions).main == Collecting
    decreases |actions|
  {
    if actions == [] {
      if s.main != Collecting {
        Progress(cfg, s);
      }
    } else {
      StepKeepsInv(cfg, s, actions[0]);
      StepShrinks(cfg, s, actions[0]);
      RunsAreBounded(cfg, Step(cfg, s, actions[0]), actions[1..]);
    }
  }

  /** From the start every interleaving is finite, and one that cannot go on has reached the collecting of the map. */
  lemma EveryRunCollects(cfg: Config, actions: seq<Action>)
    requires ValidConfig(cfg) && IsRun(cfg, InitialState(cfg), actions)
    ensures |actions| <= Left(cfg, InitialState(cfg))
    ensures Exec(cfg, InitialState(cfg), actions).main == Collecting
            <==> forall a :: !Enabled(cfg, Exec(cfg, InitialState(cfg), actions), a)
  {
    InitialInv(cfg);
    RunsAreBounded(cfg, InitialState(cfg), actions);
    if Exec(cfg, InitialState(cfg), actions).main == Collecting {
      Barrier(cfg, actions);
    }
  }
}
