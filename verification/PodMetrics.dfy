/** The per-pod records of the status dashboard and the eight parsers that fill them. */
module PodMetrics {
  import opened Wrappers

  datatype Float64 = NaN | Infinite(negative: bool) | Finite(value: real)

  const ZERO: Float64 := Finite(0.0)
  const ONE: Float64 := Finite(1.0)

  datatype PodStatus = PodStatus(podName: string, phase: string, ready: bool, cpuUsage: Float64, cpuLimit: Float64,
                                 memoryUsage: Float64, memoryLimit: Float64, restarts: int, oomKilled: bool)

  function Blank(name: string): PodStatus {
    PodStatus(name, "", false, ZERO, ZERO, ZERO, ZERO, 0, false)
  }

  type Board = map<string, PodStatus>

  /** The queries, one goroutine each. */
  datatype Worker = CpuUsage | CpuLimit | MemoryUsage | MemoryLimit | Restarts | Readiness | Phase | OOM

  /** A row of a query result: its labels and the text of its value. */
  datatype Row = Row(metric: map<string, string>, value: string)

  datatype Response = QueryError | NotVector | Vector(rows: seq<Row>)

  /** strconv.ParseFloat and the conversion int64(v), which the language leaves open for some values. */
  datatype Numerics = Numerics(parseFloat: string -> Option<Float64>, toInt64: Float64 -> int)

  function RowsOf(r: Response): seq<Row> { if r.Vector? then r.rows else [] }

  predicate Names(row: Row, pod: string) { "pod" in row.metric && row.metric["pod"] == pod }

  /** What a row does to the record of the pod it names. */
  function Parse(num: Numerics, w: Worker, row: Row, ps: PodStatus): PodStatus {
    match w
    case Phase => if "phase" in row.metric then ps.(phase := row.metric["phase"]) else ps
    case OOM => ps.(oomKilled := true)
    case _ =>
      match num.parseFloat(row.value)
      case None => ps
      case Some(v) => ParseNumber(num, w, v, ps)
  }

  function ParseNumber(num: Numerics, w: Worker, v: Float64, ps: PodStatus): PodStatus {
    match w
    case CpuUsage => ps.(cpuUsage := v)
    case CpuLimit => ps.(cpuLimit := v)
    case MemoryUsage => ps.(memoryUsage := v)
    case MemoryLimit => ps.(memoryLimit := v)
    case Restarts => ps.(restarts := num.toInt64(v))
    case Readiness => if v == ONE then ps.(ready := true) else ps
    case _ => ps
  }

  /** What a row does to the shared map. */
  function Apply(num: Numerics, w: Worker, row: Row, board: Board): Board {
    if "pod" in row.metric && row.metric["pod"] in board
    then board[row.metric["pod"] := Parse(num, w, row, board[row.metric["pod"]])]
    else board
  }

  function ApplyRows(num: Numerics, w: Worker, rows: seq<Row>, board: Board): (b: Board)
    ensures b.Keys == board.Keys
  {
    if rows == [] then board
    else Apply(num, w, rows[|rows| - 1], ApplyRows(num, w, rows[..|rows| - 1], board))
  }

  /** The worker's rows seen by one pod alone, starting from an empty record. */
  function Column(num: Numerics, w: Worker, rows: seq<Row>, pod: string): PodStatus {
    if rows == [] then Blank(pod)
    else
      var before := Column(num, w, rows[..|rows| - 1], pod);
      if Names(rows[|rows| - 1], pod) then Parse(num, w, rows[|rows| - 1], before) else before
  }

  /** The record put together from the workers' columns: every field comes from its own worker. */
  function Mix(pod: string, column: Worker -> PodStatus): PodStatus {
    PodStatus(pod, column(Phase).phase, column(Readiness).ready, column(CpuUsage).cpuUsage, column(CpuLimit).cpuLimit,
              column(MemoryUsage).memoryUsage, column(MemoryLimit).memoryLimit, column(Restarts).restarts,
              column(OOM).oomKilled)
  }

  function Seen(responses: Worker -> Response, done: Worker -> nat, w: Worker): seq<Row>
    requires done(w) <= |RowsOf(responses(w))|
  { RowsOf(responses(w))[..done(w)] }

  predicate Within(responses: Worker -> Response, done: Worker -> nat) {
    forall w :: done(w) <= |RowsOf(responses(w))|
  }

  /** The record a pod has when each worker has processed that many of its rows. */
  function Record(num: Numerics, responses: Worker -> Response, done: Worker -> nat, pod: string): PodStatus
    requires Within(responses, done)
  { Mix(pod, Columns(num, responses, done, pod)) }

  function Columns(num: Numerics, responses: Worker -> Response, done: Worker -> nat, pod: string)
    : (column: Worker -> PodStatus)
    requires Within(responses, done)
  { w => if done(w) <= |RowsOf(responses(w))| then Column(num, w, Seen(responses, done, w), pod) else Blank(pod) }

  /** The parsers write disjoint fields: applying one to the whole record is applying it to its own column. */
  lemma MixStep(num: Numerics, w: Worker, row: Row, pod: string, column: Worker -> PodStatus, next: Worker -> PodStatus)
    requires forall v :: v != w ==> next(v) == column(v)
    requires next(w) == Parse(num, w, row, column(w))
    ensures Mix(pod, next) == Parse(num, w, row, Mix(pod, column))
  {
    hide Parse;
    hide Mix;
    if w == CpuUsage || w == CpuLimit || w == MemoryUsage || w == MemoryLimit {
      MixFloat(num, w, row, pod, column, next);
    } else {
      MixOther(num, w, row, pod, column, next);
    }
  }

  lemma MixFloat(num: Numerics, w: Worker, row: Row, pod: string, column: Worker -> PodStatus,
                 next: Worker -> PodStatus)
    requires w == CpuUsage || w == CpuLimit || w == MemoryUsage || w == MemoryLimit
    requires forall v :: v != w ==> next(v) == column(v)
    requires next(w) == Parse(num, w, row, column(w))
    ensures Mix(pod, next) == Parse(num, w, row, Mix(pod, column))
  {
  }

  lemma MixOther(num: Numerics, w: Worker, row: Row, pod: string, column: Worker -> PodStatus,
                 next: Worker -> PodStatus)
    requires w == Phase || w == Readiness || w == Restarts || w == OOM
    requires forall v :: v != w ==> next(v) == column(v)
    requires next(w) == Parse(num, w, row, column(w))
    ensures Mix(pod, next) == Parse(num, w, row, Mix(pod, column))
  {
  }

  lemma RecordStep(num: Numerics, responses: Worker -> Response, done: Worker -> nat, next: Worker -> nat, w: Worker,
                   pod: string)
    requires Within(responses, done) && Within(responses, next)
    requires next(w) == done(w) + 1 && forall v :: v != w ==> next(v) == done(v)
    ensures var row := RowsOf(responses(w))[done(w)];
            Record(num, responses, next, pod)
            == if Names(row, pod) then Parse(num, w, row, Record(num, responses, done, pod))
               else Record(num, responses, done, pod)
  {
    hide Parse;
    hide Columns;
    hide Names;
    var row := RowsOf(responses(w))[done(w)];
    ColumnsStep(num, responses, done, next, w, pod);
    if Names(row, pod) {
      MixStep(num, w, row, pod, Columns(num, responses, done, pod), Columns(num, responses, next, pod));
    }
  }

  lemma ColumnsStep(num: Numerics, responses: Worker -> Response, done: Worker -> nat, next: Worker -> nat, w: Worker,
                    pod: string)
    requires Within(responses, done) && Within(responses, next)
    requires next(w) == done(w) + 1 && forall v :: v != w ==> next(v) == done(v)
    ensures var row := RowsOf(responses(w))[done(w)];
            var column, column' := Columns(num, responses, done, pod), Columns(num, responses, next, pod);
            && column'(w) == (if Names(row, pod) then Parse(num, w, row, column(w)) else column(w))
            && forall v :: v != w ==> column'(v) == column(v)
  {
    hide Parse;
    hide Names;
    ColumnStep(num, w, RowsOf(responses(w)), done(w), pod);
  }

  lemma ColumnStep(num: Numerics, w: Worker, rows: seq<Row>, k: nat, pod: string)
    requires k < |rows|
    ensures Column(num, w, rows[..k + 1], pod)
            == if Names(rows[k], pod) then Parse(num, w, rows[k], Column(num, w, rows[..k], pod))
               else Column(num, w, rows[..k], pod)
  {
    assert rows[..k + 1][..k] == rows[..k];
  }

  /** Records depend only on how far each worker is. */
  lemma RecordSame(num: Numerics, responses: Worker -> Response, done: Worker -> nat, next: Worker -> nat, pod: string)
    requires Within(responses, done) && Within(responses, next)
    requires forall v :: next(v) == done(v)
    ensures Record(num, responses, next, pod) == Record(num, responses, done, pod)
  {
  }

  // ---------- what the fields of a record mean ----------

  /** Value of the last row that names the pod and parses. */
  function LastValue(num: Numerics, rows: seq<Row>, pod: string): Option<Float64> {
    if rows == [] then None
    else
      var row := rows[|rows| - 1];
      if Names(row, pod) && num.parseFloat(row.value).Some? then num.parseFloat(row.value)
      else LastValue(num, rows[..|rows| - 1], pod)
  }

  function LastPhase(rows: seq<Row>, pod: string): string {
    if rows == [] then ""
    else
      var row := rows[|rows| - 1];
      if Names(row, pod) && "phase" in row.metric then row.metric["phase"] else LastPhase(rows[..|rows| - 1], pod)
  }

  function Or<T>(o: Option<T>, default: T): T { if o.Some? then o.value else default }

  /** Within a numeric worker the last row that names the pod and parses wins. */
  lemma {:induction false} NumberColumns(num: Numerics, rows: seq<Row>, pod: string)
    ensures var last := LastValue(num, rows, pod);
            && Column(num, CpuUsage, rows, pod).cpuUsage == Or(last, ZERO)
            && Column(num, CpuLimit, rows, pod).cpuLimit == Or(last, ZERO)
            && Column(num, MemoryUsage, rows, pod).memoryUsage == Or(last, ZERO)
            && Column(num, MemoryLimit, rows, pod).memoryLimit == Or(last, ZERO)
            && Column(num, Restarts, rows, pod).restarts == (if last.Some? then num.toInt64(last.value) else 0)
  {
    if rows != [] {
      NumberColumns(num, rows[..|rows| - 1], pod);
    }
  }

  lemma {:induction false} PhaseColumn(num: Numerics, rows: seq<Row>, pod: string)
    ensures Column(num, Phase, rows, pod).phase == LastPhase(rows, pod)
  {
    if rows != [] {
      PhaseColumn(num, rows[..|rows| - 1], pod);
    }
  }

  predicate SaysReady(num: Numerics, row: Row, pod: string) {
    Names(row, pod) && num.parseFloat(row.value) == Some(ONE)
  }

  /** Readiness and OOM kills need one witness and are never taken back. */
  lemma {:induction false} FlagColumns(num: Numerics, rows: seq<Row>, pod: string)
    ensures Column(num, Readiness, rows, pod).ready <==> exists row :: row in rows && SaysReady(num, row, pod)
    ensures Column(num, OOM, rows, pod).oomKilled <==> exists row :: row in rows && Names(row, pod)
  {
    if rows != [] {
      var front, last := rows[..|rows| - 1], rows[|rows| - 1];
      FlagColumns(num, front, pod);
      assert forall row :: row in rows <==> row in front || row == last;
      assert Column(num, Readiness, rows, pod).ready
        <==> Column(num, Readiness, front, pod).ready || SaysReady(num, last, pod);
    }
  }

  function Full(responses: Worker -> Response): (done: Worker -> nat)
    ensures Within(responses, done)
  { w => |RowsOf(responses(w))| }

  /** The record of a pod once every worker is through. */
  function FinalRecord(num: Numerics, responses: Worker -> Response, pod: string): PodStatus {
    Record(num, responses, Full(responses), pod)
  }

  lemma FinalColumns(num: Numerics, responses: Worker -> Response, pod: string)
    ensures FinalRecord(num, responses, pod) == Mix(pod, w => Column(num, w, RowsOf(responses(w)), pod))
  {
    forall w ensures Seen(responses, Full(responses), w) == RowsOf(responses(w)) {
      assert RowsOf(responses(w))[..|RowsOf(responses(w))|] == RowsOf(responses(w));
    }
  }

  // ---------- the same, in terms of labels and positions ----------

  predicate Of(row: Row, pod: string) { "pod" in row.metric && row.metric["pod"] == pod }

  /** Row k is of the pod and parses, and no later one is and does. */
  predicate LastNumber(num: Numerics, rows: seq<Row>, pod: string, k: int) {
    && 0 <= k < |rows| && Of(rows[k], pod) && num.parseFloat(rows[k].value).Some?
    && forall j :: k < j < |rows| ==> !(Of(rows[j], pod) && num.parseFloat(rows[j].value).Some?)
  }

  predicate NoNumber(num: Numerics, rows: seq<Row>, pod: string) {
    forall row :: row in rows && Of(row, pod) ==> num.parseFloat(row.value).None?
  }

  /** The field holds the last number given for the pod, or zero. */
  ghost predicate HoldsNumber(num: Numerics, rows: seq<Row>, pod: string, field: Float64) {
    || (NoNumber(num, rows, pod) && field == Finite(0.0))
    || exists k :: LastNumber(num, rows, pod, k) && num.parseFloat(rows[k].value) == Some(field)
  }

  ghost predicate HoldsCount(num: Numerics, rows: seq<Row>, pod: string, field: int) {
    || (NoNumber(num, rows, pod) && field == 0)
    || exists k :: LastNumber(num, rows, pod, k) && field == num.toInt64(num.parseFloat(rows[k].value).value)
  }

  predicate LastPhaseAt(rows: seq<Row>, pod: string, k: int) {
    && 0 <= k < |rows| && Of(rows[k], pod) && "phase" in rows[k].metric
    && forall j :: k < j < |rows| ==> !(Of(rows[j], pod) && "phase" in rows[j].metric)
  }

  ghost predicate HoldsPhase(rows: seq<Row>, pod: string, field: string) {
    || (field == "" && forall row :: row in rows && Of(row, pod) ==> "phase" !in row.metric)
    || exists k :: LastPhaseAt(rows, pod, k) && field == rows[k].metric["phase"]
  }

  lemma {:induction false} LastValueAt(num: Numerics, rows: seq<Row>, pod: string)
    ensures match LastValue(num, rows, pod)
            case None => NoNumber(num, rows, pod)
            case Some(v) => exists k :: LastNumber(num, rows, pod, k) && num.parseFloat(rows[k].value) == Some(v)
  {
    if rows != [] {
      var front, last := rows[..|rows| - 1], rows[|rows| - 1];
      if Of(last, pod) && num.parseFloat(last.value).Some? {
        assert LastNumber(num, rows, pod, |rows| - 1);
      } else {
        LastValueAt(num, front, pod);
        if LastValue(num, front, pod).Some? {
          var k :| LastNumber(num, front, pod, k)
                   && num.parseFloat(front[k].value) == LastValue(num, front, pod);
          assert LastNumber(num, rows, pod, k);
        }
      }
    }
  }

  lemma {:induction false} LastPhaseIs(rows: seq<Row>, pod: string)
    ensures HoldsPhase(rows, pod, LastPhase(rows, pod))
  {
    if rows != [] {
      var front, last := rows[..|rows| - 1], rows[|rows| - 1];
      if Of(last, pod) && "phase" in last.metric {
        assert LastPhaseAt(rows, pod, |rows| - 1);
      } else {
        LastPhaseIs(front, pod);
        if k :| LastPhaseAt(front, pod, k) && LastPhase(front, pod) == front[k].metric["phase"] {
          assert LastPhaseAt(rows, pod, k);
        }
      }
    }
  }

  lemma NumbersHold(num: Numerics, rows: seq<Row>, pod: string)
    ensures HoldsNumber(num, rows, pod, Column(num, CpuUsage, rows, pod).cpuUsage)
    ensures HoldsNumber(num, rows, pod, Column(num, CpuLimit, rows, pod).cpuLimit)
    ensures HoldsNumber(num, rows, pod, Column(num, MemoryUsage, rows, pod).memoryUsage)
    ensures HoldsNumber(num, rows, pod, Column(num, MemoryLimit, rows, pod).memoryLimit)
    ensures HoldsCount(num, rows, pod, Column(num, Restarts, rows, pod).restarts)
  {
    NumberColumns(num, rows, pod);
    LastValueAt(num, rows, pod);
  }

  /** The rows of a result; a failed query and a result that is no vector have none. */
  function ResultRows(r: Response): seq<Row> {
    match r
    case Vector(rows) => rows
    case _ => []
  }

  /** Every field of the final record in terms of the rows of its own query: the last number or phase given for the pod;
      ready when some row of the pod says exactly 1; OOM-killed when there is a row of the pod. */
  lemma FinalRecordMeaning(num: Numerics, responses: Worker -> Response, pod: string)
    ensures var r := FinalRecord(num, responses, pod);
            var rows := w => ResultRows(responses(w));
            && r.podName == pod
            && HoldsNumber(num, rows(CpuUsage), pod, r.cpuUsage) && HoldsNumber(num, rows(CpuLimit), pod, r.cpuLimit)
            && HoldsNumber(num, rows(MemoryUsage), pod, r.memoryUsage)
            && HoldsNumber(num, rows(MemoryLimit), pod, r.memoryLimit)
            && HoldsCount(num, rows(Restarts), pod, r.restarts) && HoldsPhase(rows(Phase), pod, r.phase)
            && (r.ready <==> exists row :: row in rows(Readiness) && Of(row, pod)
                                           && num.parseFloat(row.value) == Some(Finite(1.0)))
            && (r.oomKilled <==> exists row :: row in rows(OOM) && Of(row, pod))
  {
    hide HoldsNumber;
    hide HoldsCount;
    hide HoldsPhase;
    hide Column;
    FinalColumns(num, responses, pod);
    NumbersHold(num, RowsOf(responses(CpuUsage)), pod);
    NumbersHold(num, RowsOf(responses(CpuLimit)), pod);
    NumbersHold(num, RowsOf(responses(MemoryUsage)), pod);
    NumbersHold(num, RowsOf(responses(MemoryLimit)), pod);
    NumbersHold(num, RowsOf(responses(Restarts)), pod);
    PhaseColumn(num, RowsOf(responses(Phase)), pod);
    LastPhaseIs(RowsOf(responses(Phase)), pod);
    FlagColumns(num, RowsOf(responses(Readiness)), pod);
    FlagColumns(num, RowsOf(responses(OOM)), pod);
  }

  function Naming(rows: seq<Row>, pod: string): seq<Row> {
    if rows == [] then []
    else Naming(rows[..|rows| - 1], pod) + if Names(rows[|rows| - 1], pod) then [rows[|rows| - 1]] else []
  }

  /** Only the rows that name the pod matter to it. */
  lemma {:induction false} ColumnOfNaming(num: Numerics, w: Worker, rows: seq<Row>, pod: string)
    ensures Column(num, w, rows, pod) == Column(num, w, Naming(rows, pod), pod)
  {
    if rows != [] {
      var k := |rows| - 1;
      ColumnOfNaming(num, w, rows[..k], pod);
      if Names(rows[k], pod) {
        assert Naming(rows, pod)[..|Naming(rows, pod)| - 1] == Naming(rows[..k], pod);
      } else {
        assert Naming(rows, pod) == Naming(rows[..k], pod);
      }
    }
  }

  /** Two sets of responses that agree on the rows naming a pod give that pod the same record. */
  lemma PodNonInterference(num: Numerics, r1: Worker -> Response, r2: Worker -> Response, pod: string)
    requires forall w :: Naming(RowsOf(r1(w)), pod) == Naming(RowsOf(r2(w)), pod)
    ensures FinalRecord(num, r1, pod) == FinalRecord(num, r2, pod)
  {
    FinalColumns(num, r1, pod);
    FinalColumns(num, r2, pod);
    forall w ensures Column(num, w, RowsOf(r1(w)), pod) == Column(num, w, RowsOf(r2(w)), pod) {
      ColumnOfNaming(num, w, RowsOf(r1(w)), pod);
      ColumnOfNaming(num, w, RowsOf(r2(w)), pod);
    }
  }
}
