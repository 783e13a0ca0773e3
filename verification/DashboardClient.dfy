/** The status dashboard as statements and loops: the critical sections of the goroutines, the list of pod names, the
    alert filter, and the whole request for one serial schedule of the goroutines (module Dashboard covers all). */
module DashboardClient {
  import opened Wrappers
  import opened Sequences
  import opened PodMetrics
  import opened Dashboard

  datatype Alert = Alert(labels: map<string, string>, annotations: map<string, string>)

  datatype StatusDashboard = StatusDashboard(serviceName: string, alerts: seq<Alert>, pods: seq<PodStatus>)

  /** The shared map. */
  class Collector {
    const num: Numerics
    var podMetrics: Board

    constructor (num: Numerics, podNames: seq<string>)
      ensures this.num == num && podMetrics == InitialBoard(set n | n in podNames)
    {
      this.num := num;
      this.podMetrics := map n | n in podNames :: Blank(n);
    }

    /** queryAndParse after the query, for the six numeric workers. */
    method QueryAndParse(resp: Response, w: Worker)
      requires w != Phase && w != OOM
      modifies this
      ensures podMetrics == ApplyRows(num, w, RowsOf(resp), old(podMetrics))
    {
      hide ParseNumber;
      if !resp.Vector? {
        return;
      }
      for i := 0 to |resp.rows|
        invariant podMetrics == ApplyRows(num, w, resp.rows[..i], old(podMetrics))
      {
        assert resp.rows[..i + 1][..i] == resp.rows[..i];
        var row := resp.rows[i];
        if "pod" !in row.metric {
          continue;
        }
        var podName := row.metric["pod"];
        if podName in podMetrics {
          var value := num.parseFloat(row.value);
          if value.None? {
            assert podMetrics[podName := podMetrics[podName]] == podMetrics;
            continue;
          }
          podMetrics := podMetrics[podName := ParseNumber(num, w, value.value, podMetrics[podName])];
        }
      }
      assert resp.rows[..|resp.rows|] == resp.rows;
    }

    /** queryAndParseLabel after the query, with the label "phase". */
    method QueryAndParseLabel(resp: Response)
      modifies this
      ensures podMetrics == ApplyRows(num, Phase, RowsOf(resp), old(podMetrics))
    {
      if !resp.Vector? {
        return;
      }
      for i := 0 to |resp.rows|
        invariant podMetrics == ApplyRows(num, Phase, resp.rows[..i], old(podMetrics))
      {
        assert resp.rows[..i + 1][..i] == resp.rows[..i];
        var row := resp.rows[i];
        if "pod" !in row.metric {
          continue;
        }
        var podName := row.metric["pod"];
        if podName in podMetrics {
          if "phase" in row.metric {
            podMetrics := podMetrics[podName := podMetrics[podName].(phase := row.metric["phase"])];
          } else {
            assert podMetrics[podName := podMetrics[podName]] == podMetrics;
          }
        }
      }
      assert resp.rows[..|resp.rows|] == resp.rows;
    }

    /** The goroutine that looks for OOM kills, after its query. */
    method QueryOOM(resp: Response)
      modifies this
      ensures podMetrics == ApplyRows(num, OOM, RowsOf(resp), old(podMetrics))
    {
      if !resp.Vector? {
        return;
      }
      for i := 0 to |resp.rows|
        invariant podMetrics == ApplyRows(num, OOM, resp.rows[..i], old(podMetrics))
      {
        assert resp.rows[..i + 1][..i] == resp.rows[..i];
        var row := resp.rows[i];
        if "pod" !in row.metric {
          continue;
        }
        var podName := row.metric["pod"];
        if podName in podMetrics {
          podMetrics := podMetrics[podName := podMetrics[podName].(oomKilled := true)];
        }
      }
      assert resp.rows[..|resp.rows|] == resp.rows;
    }
  }

  /** The pods named in a result. */
  function PodsOf(rows: seq<Row>): set<string> {
    set row | row in rows && "pod" in row.metric :: row.metric["pod"]
  }

  lemma PodsOfMeaning(rows: seq<Row>)
    ensures forall n :: n in PodsOf(rows) <==>
              exists row :: row in rows && "pod" in row.metric && row.metric["pod"] == n
  {
  }

  predicate Distinct<T(==)>(s: seq<T>) { forall i, j :: 0 <= i < j < |s| ==> s[i] != s[j] }

  /** Every pod of a vector result once, in no particular order; None stands for the error returned otherwise. */
  method GetPodNamesForJob(resp: Response) returns (names: Option<seq<string>>)
    ensures names.Some? <==> resp.Vector?
    ensures names.Some? ==>
              && Distinct(names.value)
              && forall n :: n in names.value <==>
                   exists row :: row in resp.rows && "pod" in row.metric && row.metric["pod"] == n
  {
    if !resp.Vector? {
      return None;
    }
    var found: set<string> := {};
    for i := 0 to |resp.rows|
      invariant found == PodsOf(resp.rows[..i])
    {
      assert resp.rows[..i + 1] == resp.rows[..i] + [resp.rows[i]];
      if "pod" in resp.rows[i].metric {
        found := found + {resp.rows[i].metric["pod"]};
      }
    }
    assert resp.rows[..|resp.rows|] == resp.rows;
    var list: seq<string> := [];
    var rest := found;
    while rest != {}
      invariant rest !! (set n | n in list) && rest + (set n | n in list) == found
      invariant Distinct(list)
      decreases rest
    {
      var name :| name in rest;
      list := list + [name];
      rest := rest - {name};
    }
    PodsOfMeaning(resp.rows);
    assert forall n :: n in list <==> n in PodsOf(resp.rows);
    return Some(list);
  }

  function Label(alert: Alert, key: string): string {
    if key in alert.labels then alert.labels[key] else ""
  }

  /** One record per key of the map, in no particular order. */
  method CollectPods(board: Board) returns (pods: seq<PodStatus>)
    requires forall n :: n in board ==> board[n].podName == n
    ensures |pods| == |board.Keys|
    ensures forall i, j :: 0 <= i < j < |pods| ==> pods[i].podName != pods[j].podName
    ensures forall ps :: ps in pods ==> ps.podName in board && ps == board[ps.podName]
    ensures forall n :: n in board ==> board[n] in pods
  {
    pods := [];
    var rest := board.Keys;
    while rest != {}
      invariant rest <= board.Keys && |pods| + |rest| == |board.Keys|
      invariant forall i, j :: 0 <= i < j < |pods| ==> pods[i].podName != pods[j].podName
      invariant forall ps :: ps in pods ==> ps.podName in board && ps.podName !in rest && ps == board[ps.podName]
      invariant forall n :: n in board ==> n in rest || board[n] in pods
      decreases rest
    {
      var name :| name in rest;
      pods := pods + [board[name]];
      rest := rest - {name};
    }
  }

  /** Runs the goroutines one after another in launch order. */
  method CollectMetrics(cfg: Config, podNames: seq<string>) returns (board: Board)
    requires ValidConfig(cfg) && cfg.names == set n | n in podNames
    ensures board.Keys == cfg.names
    ensures forall p :: p in cfg.names ==> board[p] == FinalRecord(cfg.num, cfg.responses, p)
  {
    var collector := new Collector(cfg.num, podNames);
    for g := 0 to |cfg.order|
      invariant collector.num == cfg.num
      invariant collector.podMetrics == Sequential(cfg, cfg.order[..g], InitialBoard(cfg.names))
    {
      var w := cfg.order[g];
      assert cfg.order[..g + 1][..g] == cfg.order[..g];
      match w {
        case Phase => collector.QueryAndParseLabel(cfg.responses(w));
        case OOM => collector.QueryOOM(cfg.responses(w));
        case _ => collector.QueryAndParse(cfg.responses(w), w);
      }
    }
    assert cfg.order[..|cfg.order|] == cfg.order;
    board := collector.podMetrics;
    forall p | p in cfg.names ensures board[p] == FinalRecord(cfg.num, cfg.responses, p) {
      SequentialIsRecord(cfg, cfg.order, p);
      RecordSame(cfg.num, cfg.responses, DoneBy(cfg, cfg.order), Full(cfg.responses), p);
    }
  }

  /** The alerts kept are those with this "job" label and, if a namespace is given, with that "namespace" label, each as
      often as it is active and in the same order; a missing label counts as empty. */
  ghost predicate AlertsOfJob(kept: seq<Alert>, active: seq<Alert>, namespace: string, jobName: string) {
    exists at: seq<nat> ::
      && |at| == |kept| && (forall i, j :: 0 <= i < j < |at| ==> at[i] < at[j])
      && (forall i :: 0 <= i < |at| ==> at[i] < |active| && kept[i] == active[at[i]])
      && forall k: nat :: k in at <==> k < |active| && LabelsMatch(active[k].labels, namespace, jobName)
  }

  predicate LabelsMatch(labels: map<string, string>, namespace: string, jobName: string) {
    && (if "job" in labels then labels["job"] == jobName else jobName == "")
    && (if "namespace" in labels then namespace in {"", labels["namespace"]} else namespace == "")
  }

  predicate NamesPod(rows: seq<Row>, pod: string) {
    exists row :: row in rows && "pod" in row.metric && row.metric["pod"] == pod
  }

  /** One record for each pod named in the rows, the final one. */
  ghost predicate RecordsOfPods(pods: seq<PodStatus>, rows: seq<Row>, num: Numerics, responses: Worker -> Response) {
    && (forall i, j :: 0 <= i < j < |pods| ==> pods[i].podName != pods[j].podName)
    && (forall ps :: ps in pods ==> NamesPod(rows, ps.podName) && ps == FinalRecord(num, responses, ps.podName))
    && (forall pod :: NamesPod(rows, pod) ==> FinalRecord(num, responses, pod) in pods)
  }

  /** A dashboard holds one record for each distinct pod of the up query and the alerts of the job; without pods it is
      empty, and a failed or non-vector up query is the only error. */
  method GetStatusDashboard(namespace: string, jobName: string, up: Response, active: Option<seq<Alert>>,
                            num: Numerics, responses: Worker -> Response, order: seq<Worker>)
    returns (dashboard: Option<StatusDashboard>)
    requires ValidConfig(Config({}, num, responses, order))
    ensures dashboard.Some? <==> up.Vector?
    ensures dashboard.Some? ==>
              var d := dashboard.value;
              && d.serviceName == jobName && RecordsOfPods(d.pods, up.rows, num, responses)
              && if active.None? || forall row :: row in up.rows ==> "pod" !in row.metric then d.alerts == []
                 else AlertsOfJob(d.alerts, active.value, namespace, jobName)
  {
    hide FinalRecord;
    hide AlertsOfJob;
    var podNames := GetPodNamesForJob(up);
    if podNames.None? {
      return None;
    }
    if |podNames.value| == 0 {
      assert forall row :: row in up.rows && "pod" in row.metric ==> row.metric["pod"] in podNames.value;
      return Some(StatusDashboard(jobName, [], []));
    }
    assert podNames.value[0] in podNames.value;
    var alerts: seq<Alert> := [];
    if active.Some? {
      alerts := FilterAlerts(active.value, namespace, jobName);
    }
    var pods := PodRecords(podNames.value, num, responses, order);
    assert forall pod :: NamesPod(up.rows, pod) <==> pod in podNames.value;
    return Some(StatusDashboard(jobName, alerts, pods));
  }

  /** Fills the map and collects it. */
  method PodRecords(podNames: seq<string>, num: Numerics, responses: Worker -> Response, order: seq<Worker>)
    returns (pods: seq<PodStatus>)
    requires ValidConfig(Config({}, num, responses, order))
    ensures forall i, j :: 0 <= i < j < |pods| ==> pods[i].podName != pods[j].podName
    ensures forall ps :: ps in pods ==> ps.podName in podNames && ps == FinalRecord(num, responses, ps.podName)
    ensures forall pod :: pod in podNames ==> FinalRecord(num, responses, pod) in pods
  {
    hide FinalRecord;
    var board := CollectMetrics(Config((set n | n in podNames), num, responses, order), podNames);
    forall n | n in board ensures board[n].podName == n {
      NameOfRecord(num, responses, n);
    }
    pods := CollectPods(board);
  }

  lemma NameOfRecord(num: Numerics, responses: Worker -> Response, n: string)
    ensures FinalRecord(num, responses, n).podName == n
  {
  }

  /** The alert is of the job and, if one is given, of the namespace. */
  function OfJob(namespace: string, jobName: string): Alert -> bool {
    (a: Alert) => Label(a, "job") == jobName && (namespace == "" || Label(a, "namespace") == namespace)
  }

  function Same(a: Alert): Alert { a }

  method FilterAlerts(alerts: seq<Alert>, namespace: string, jobName: string) returns (kept: seq<Alert>)
    ensures AlertsOfJob(kept, alerts, namespace, jobName)
  {
    hide InOrder;
    hide AlertsOfJob;
    kept := [];
    InOrderEmpty(OfJob(namespace, jobName), Same);
    for i := 0 to |alerts|
      invariant InOrder(kept, alerts[..i], OfJob(namespace, jobName), Same)
    {
      InOrderSnoc(kept, alerts[..i], OfJob(namespace, jobName), Same, alerts[i]);
      assert alerts[..i] + [alerts[i]] == alerts[..i + 1];
      if Label(alerts[i], "job") == jobName && (namespace == "" || Label(alerts[i], "namespace") == namespace) {
        kept := kept + [alerts[i]];
      }
    }
    assert alerts[..|alerts|] == alerts;
    SelectedPositions(kept, alerts, namespace, jobName);
  }

  lemma OfJobMeaning(a: Alert, namespace: string, jobName: string)
    ensures OfJob(namespace, jobName)(a) <==> LabelsMatch(a.labels, namespace, jobName)
  {
  }

  lemma SelectedPositions(kept: seq<Alert>, alerts: seq<Alert>, namespace: string, jobName: string)
    requires InOrder(kept, alerts, OfJob(namespace, jobName), Same)
    ensures AlertsOfJob(kept, alerts, namespace, jobName)
  {
    var at: seq<nat> :| Keeps(at, alerts, OfJob(namespace, jobName)) && Maps(kept, alerts, at, Same);
    hide OfJob;
    hide LabelsMatch;
    forall k: nat ensures k in at <==> k < |alerts| && LabelsMatch(alerts[k].labels, namespace, jobName) {
      if k < |alerts| {
        OfJobMeaning(alerts[k], namespace, jobName);
      }
    }
  }
}
