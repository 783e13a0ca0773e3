/** Who is told about an alert: the first label, in map iteration order, for which somebody on duty is found. */
module Alerting {
  import opened Wrappers
  import opened DutyRepository

  type Labels = map<string, string>

  datatype Alert = Alert(labels: Labels)

  /** A lookup returns users and an error; the two are not exclusive. */
  datatype Lookup = Lookup(users: seq<User>, failed: bool)

  type Finder = string -> Lookup

  datatype Notification = Notification(login: string, alert: Alert)

  function Text(pair: (string, string)): string { pair.0 + "=" + pair.1 }

  predicate IsLabel(pair: (string, string), labels: Labels) { pair.0 in labels && labels[pair.0] == pair.1 }

  /** A possible iteration order over the labels: each pair once. */
  ghost predicate Iterates(order: seq<(string, string)>, labels: Labels) {
    && (forall i, j :: 0 <= i < j < |order| ==> order[i] != order[j])
    && (forall p :: p in order <==> IsLabel(p, labels))
  }

  /** The lookup answers with somebody. */
  predicate Answers(find: Finder, pair: (string, string)) {
    !find(Text(pair)).failed && find(Text(pair)).users != []
  }

  /** What the variable dutyUsers holds after the loop over the labels. */
  function DutyUsers(find: Finder, order: seq<(string, string)>): seq<User> {
    if order == [] then []
    else if Answers(find, order[0]) then find(Text(order[0])).users
    else if |order| == 1 then find(Text(order[0])).users
    else DutyUsers(find, order[1..])
  }

  method FindDutyUsers(find: Finder, order: seq<(string, string)>) returns (dutyUsers: seq<User>)
    ensures dutyUsers == DutyUsers(find, order)
  {
    dutyUsers := [];
    for i := 0 to |order|
      invariant i == 0 ==> dutyUsers == []
      invariant i > 0 ==> dutyUsers == find(Text(order[i - 1])).users && !Answers(find, order[i - 1])
      invariant DutyUsers(find, order) == if i < |order| then DutyUsers(find, order[i..]) else dutyUsers
    {
      assert order[i..][1..] == order[i + 1..];
      var lookup := find(Text(order[i]));
      dutyUsers := lookup.users;
      if lookup.failed {
        continue;
      }
      if |dutyUsers| > 0 {
        break;
      }
    }
  }

  function Notify(users: seq<User>, alert: Alert): seq<Notification> {
    seq(|users|, i requires 0 <= i < |users| => Notification(users[i].login, alert))
  }

  /** The notifications of all alerts, given an iteration order for each. */
  function Notifications(find: Finder, alerts: seq<Alert>, orders: seq<seq<(string, string)>>): seq<Notification>
    requires |orders| == |alerts|
  {
    if alerts == [] then []
    else
      var k := |alerts| - 1;
      Notifications(find, alerts[..k], orders[..k]) + Notify(DutyUsers(find, orders[k]), alerts[k])
  }

  /** None for the list of alerts stands for a failed query, the only error returned. */
  method CheckAndNotify(active: Option<seq<Alert>>, find: Finder, orders: seq<seq<(string, string)>>)
    returns (sent: Option<seq<Notification>>)
    requires active.Some? ==> |orders| == |active.value|
    ensures sent.Some? <==> active.Some?
    ensures sent.Some? ==> sent.value == Notifications(find, active.value, orders)
  {
    if active.None? {
      return None;
    }
    var alerts := active.value;
    var log: seq<Notification> := [];
    for i := 0 to |alerts|
      invariant log == Notifications(find, alerts[..i], orders[..i])
    {
      assert alerts[..i + 1][..i] == alerts[..i] && orders[..i + 1][..i] == orders[..i];
      var dutyUsers := FindDutyUsers(find, orders[i]);
      if |dutyUsers| == 0 {
        assert Notify(dutyUsers, alerts[i]) == [];
        continue;
      }
      ghost var before := log;
      for j := 0 to |dutyUsers|
        invariant log == before + Notify(dutyUsers, alerts[i])[..j]
      {
        log := log + [Notification(dutyUsers[j].login, alerts[i])];
      }
      assert Notify(dutyUsers, alerts[i])[..|dutyUsers|] == Notify(dutyUsers, alerts[i]);
    }
    assert alerts[..|alerts|] == alerts && orders[..|alerts|] == orders;
    return Some(log);
  }

  /** How many users the first k alerts are notified to. */
  function SentBefore(find: Finder, orders: seq<seq<(string, string)>>, k: nat): nat
    requires k <= |orders|
  {
    if k == 0 then 0 else SentBefore(find, orders, k - 1) + |DutyUsers(find, orders[k - 1])|
  }

  /** From this position on the users are notified of the alert, one after another. */
  predicate NotifiedFrom(sent: seq<Notification>, start: nat, users: seq<User>, alert: Alert) {
    && start + |users| <= |sent|
    && forall j :: 0 <= j < |users| ==> sent[start + j] == Notification(users[j].login, alert)
  }

  lemma {:induction false} NotificationsLength(find: Finder, alerts: seq<Alert>, orders: seq<seq<(string, string)>>)
    requires |orders| == |alerts|
    ensures |Notifications(find, alerts, orders)| == SentBefore(find, orders, |orders|)
  {
    if alerts != [] {
      var last := |alerts| - 1;
      NotificationsLength(find, alerts[..last], orders[..last]);
      SentBeforePrefix(find, orders, last, last);
    }
  }

  /** Alerts are notified in order, each to its users in order, as often as they were found. */
  lemma {:induction false} NotificationsInOrder(find: Finder, alerts: seq<Alert>, orders: seq<seq<(string, string)>>,
                                                k: nat)
    requires k < |orders| == |alerts|
    ensures |Notifications(find, alerts, orders)| == SentBefore(find, orders, |orders|)
    ensures NotifiedFrom(Notifications(find, alerts, orders), SentBefore(find, orders, k),
                         DutyUsers(find, orders[k]), alerts[k])
  {
    hide DutyUsers;
    var last := |alerts| - 1;
    NotificationsLength(find, alerts, orders);
    SentBeforePrefix(find, orders, last, k);
    if k < last {
      NotificationsInOrder(find, alerts[..last], orders[..last], k);
    } else {
      NotificationsLength(find, alerts[..last], orders[..last]);
    }
  }

  lemma {:induction false} SentBeforePrefix(find: Finder, orders: seq<seq<(string, string)>>, n: nat, k: nat)
    requires k <= n <= |orders|
    ensures SentBefore(find, orders[..n], k) == SentBefore(find, orders, k)
  {
    if k > 0 {
      SentBeforePrefix(find, orders, n, k - 1);
    }
  }

  /** Alert k is notified to a user the loop over its labels has left. */
  ghost predicate NotifiedAt(find: Finder, alerts: seq<Alert>, orders: seq<seq<(string, string)>>, k: nat,
                             n: Notification)
    requires k < |alerts| == |orders|
  {
    n.alert == alerts[k] && exists u :: u in DutyUsers(find, orders[k]) && u.login == n.login
  }

  /** The notifications are those of each alert, to each of its users, and no others. */
  lemma {:induction false} NotificationsExactly(find: Finder, alerts: seq<Alert>, orders: seq<seq<(string, string)>>,
                                                n: Notification)
    requires |orders| == |alerts|
    ensures n in Notifications(find, alerts, orders) <==>
            exists k :: 0 <= k < |alerts| && NotifiedAt(find, alerts, orders, k, n)
  {
    if alerts != [] {
      var last := |alerts| - 1;
      NotificationsExactly(find, alerts[..last], orders[..last], n);
      NotifyMembers(DutyUsers(find, orders[last]), alerts[last], n);
      forall k | 0 <= k < last
        ensures NotifiedAt(find, alerts, orders, k, n) <==> NotifiedAt(find, alerts[..last], orders[..last], k, n)
      {
      }
      assert NotifiedAt(find, alerts, orders, last, n) <==> n in Notify(DutyUsers(find, orders[last]), alerts[last]);
    }
  }

  lemma NotifyMembers(users: seq<User>, alert: Alert, n: Notification)
    ensures n in Notify(users, alert) <==> n.alert == alert && exists u :: u in users && u.login == n.login
  {
    if u :| n.alert == alert && u in users && u.login == n.login {
      var i :| 0 <= i < |users| && users[i] == u;
      assert Notify(users, alert)[i] == n;
    }
  }

  /** The search for "key=value" succeeds and finds somebody. */
  predicate Answered(find: Finder, pair: (string, string)) {
    var found := find(pair.0 + "=" + pair.1); !found.failed && found.users != []
  }

  /** The first label that answers decides. */
  lemma {:induction false} FirstAnswerWins(find: Finder, order: seq<(string, string)>, i: nat)
    requires i < |order| && Answered(find, order[i]) && forall j :: 0 <= j < i ==> !Answered(find, order[j])
    ensures DutyUsers(find, order) == find(order[i].0 + "=" + order[i].1).users
  {
    if i > 0 {
      assert forall j :: 0 <= j < i - 1 ==> order[1..][j] == order[j + 1];
      FirstAnswerWins(find, order[1..], i - 1);
    }
  }

  /** If no label answers, what counts is what the very last lookup left behind, even if it failed. */
  lemma {:induction false} LastLookupRemains(find: Finder, order: seq<(string, string)>)
    requires forall j :: 0 <= j < |order| ==> !Answered(find, order[j])
    ensures DutyUsers(find, order)
            == if order == [] then [] else find(order[|order| - 1].0 + "=" + order[|order| - 1].1).users
  {
    if |order| > 1 {
      assert forall j :: 0 <= j < |order| - 1 ==> order[1..][j] == order[j + 1];
      LastLookupRemains(find, order[1..]);
    }
  }

  lemma FirstAnswer(find: Finder, order: seq<(string, string)>, k: nat) returns (i: nat)
    requires k < |order| && Answered(find, order[k])
    ensures i <= k && Answered(find, order[i]) && forall j :: 0 <= j < i ==> !Answered(find, order[j])
  {
    i := 0;
    while !Answered(find, order[i])
      invariant i <= k && forall j :: 0 <= j < i ==> !Answered(find, order[j])
      decreases k - i
    {
      i := i + 1;
    }
  }

  predicate FailedWithUsers(find: Finder, pair: (string, string)) {
    var found := find(pair.0 + "=" + pair.1); found.failed && found.users != []
  }

  /** A failed lookup of a label returns no users. */
  ghost predicate CleanErrors(find: Finder) {
    forall p: (string, string) :: !FailedWithUsers(find, p)
  }

  /** Whether an alert is notified does not depend on the iteration order: it is exactly when some label's lookup
      answers; and the recipients are then one answering label's users. */
  lemma AlertRouting(find: Finder, labels: Labels, order: seq<(string, string)>)
    requires CleanErrors(find) && Iterates(order, labels)
    ensures DutyUsers(find, order) != [] <==> exists p :: IsLabel(p, labels) && Answered(find, p)
    ensures DutyUsers(find, order) != [] ==>
              exists p :: IsLabel(p, labels) && Answered(find, p)
                          && DutyUsers(find, order) == find(p.0 + "=" + p.1).users
  {
    if p :| IsLabel(p, labels) && Answered(find, p) {
      assert p in order;
      var k :| 0 <= k < |order| && order[k] == p;
      var i := FirstAnswer(find, order, k);
      FirstAnswerWins(find, order, i);
      assert order[i] in order;
    } else {
      assert forall p :: p in order ==> !Answered(find, p);
      LastLookupRemains(find, order);
      if order != [] {
        assert order[|order| - 1] in order && !FailedWithUsers(find, order[|order| - 1]);
      }
    }
  }

  /** Exactly when failed lookups return no users does "somebody is notified" mean "some label answers", whatever the
      alert and the iteration order. */
  lemma RoutingNeedsCleanErrors(find: Finder)
    ensures CleanErrors(find) <==>
            forall labels, order :: Iterates(order, labels) ==>
              (DutyUsers(find, order) != [] <==> exists p :: IsLabel(p, labels) && Answered(find, p))
  {
    if CleanErrors(find) {
      forall labels, order | Iterates(order, labels)
        ensures DutyUsers(find, order) != [] <==> exists p :: IsLabel(p, labels) && Answered(find, p)
      {
        AlertRouting(find, labels, order);
      }
    } else {
      var pair: (string, string) :| FailedWithUsers(find, pair);
      var labels: Labels, order := map[pair.0 := pair.1], [pair];
      assert forall p :: p in order <==> IsLabel(p, labels);
      assert Iterates(order, labels);
      assert !Answered(find, pair);
      LastLookupRemains(find, order);
    }
  }

  /** The repository's query as a lookup that succeeds unless the database is down. */
  function Query(db: Database, down: string -> bool): Finder {
    text => if down(text) then Lookup([], true) else Lookup(GetDutyUsersByLabel(db, text), false)
  }

  /** The user is on duty and has a label row that reads "key=value". */
  ghost predicate DutyFor(db: Database, u: User, key: string, value: string) {
    && u in db.users && u.isDuty
    && exists l :: l in db.labels && l.userId == u.id && l.tag == key + "=" + value
  }

  /** With the repository behind it, everybody who is notified of an alert is on duty and carries one and the same
      "key=value" of that alert; and if no query fails, somebody is notified exactly when some user on duty carries
      such a label. */
  lemma NotifiedUsersCarryTheLabel(db: Database, down: string -> bool, labels: Labels, order: seq<(string, string)>)
    requires Iterates(order, labels)
    ensures var users := DutyUsers(Query(db, down), order);
            users != [] ==>
              exists key :: key in labels && forall u :: u in users <==> DutyFor(db, u, key, labels[key])
    ensures (forall text :: !down(text)) ==>
              (DutyUsers(Query(db, down), order) != [] <==>
               exists key, u :: key in labels && DutyFor(db, u, key, labels[key]))
  {
    var find := Query(db, down);
    AlertRouting(find, labels, order);
    var users := DutyUsers(find, order);
    if users != [] {
      var p :| IsLabel(p, labels) && Answered(find, p) && users == find(p.0 + "=" + p.1).users;
      forall u ensures u in users <==> DutyFor(db, u, p.0, labels[p.0]) {
        FoundUsers(db, p.0 + "=" + p.1, u);
      }
      assert users[0] in users;
    }
    forall key, u | key in labels && DutyFor(db, u, key, labels[key]) && !down(key + "=" + labels[key])
      ensures Answered(find, (key, labels[key])) && IsLabel((key, labels[key]), labels)
    {
      FoundUsers(db, key + "=" + labels[key], u);
    }
  }

  /** A whole check: every notification goes to a user on duty with a label row "key=value" of its alert; and if no
      query fails, whenever some user on duty has such a row for an alert, everybody on duty with one and the same
      "key=value" of it is notified of it. */
  lemma CheckReachesTheDuty(db: Database, down: string -> bool, alerts: seq<Alert>,
                            orders: seq<seq<(string, string)>>)
    requires |orders| == |alerts| && forall k :: 0 <= k < |alerts| ==> Iterates(orders[k], alerts[k].labels)
    ensures forall n :: n in Notifications(Query(db, down), alerts, orders) ==>
              && n.alert in alerts
              && exists key, u ::
                   key in n.alert.labels && DutyFor(db, u, key, n.alert.labels[key]) && u.login == n.login
    ensures (forall text :: !down(text)) ==>
              forall alert, key, u ::
                alert in alerts && key in alert.labels && DutyFor(db, u, key, alert.labels[key]) ==>
                  AllToldFor(db, down, alerts, orders, alert)
  {
    forall n | n in Notifications(Query(db, down), alerts, orders)
      ensures n.alert in alerts
      ensures exists key, u ::
              key in n.alert.labels && DutyFor(db, u, key, n.alert.labels[key]) && u.login == n.login
    {
      NotifiedIsOnDuty(db, down, alerts, orders, n);
    }
    forall alert, key, u
      | (forall text :: !down(text))
        && alert in alerts && key in alert.labels && DutyFor(db, u, key, alert.labels[key])
      ensures AllToldFor(db, down, alerts, orders, alert)
    {
      var k :| 0 <= k < |alerts| && alerts[k] == alert;
      EverybodyIsTold(db, down, alerts, orders, k, key, u);
    }
  }

  lemma NotifiedIsOnDuty(db: Database, down: string -> bool, alerts: seq<Alert>, orders: seq<seq<(string, string)>>,
                         n: Notification)
    requires |orders| == |alerts| && forall k :: 0 <= k < |alerts| ==> Iterates(orders[k], alerts[k].labels)
    requires n in Notifications(Query(db, down), alerts, orders)
    ensures n.alert in alerts
    ensures exists key, u ::
              key in n.alert.labels && DutyFor(db, u, key, n.alert.labels[key]) && u.login == n.login
  {
    var find := Query(db, down);
    NotificationsExactly(find, alerts, orders, n);
    var k :| 0 <= k < |alerts| && NotifiedAt(find, alerts, orders, k, n);
    NotifiedUsersCarryTheLabel(db, down, alerts[k].labels, orders[k]);
    var u :| u in DutyUsers(find, orders[k]) && u.login == n.login;
    var key :| key in alerts[k].labels &&
               forall u :: u in DutyUsers(find, orders[k]) <==> DutyFor(db, u, key, alerts[k].labels[key]);
    assert DutyFor(db, u, key, n.alert.labels[key]);
  }

  /** There is a label of the alert carried by somebody on duty, and everybody on duty carrying it is notified. */
  ghost predicate AllToldFor(db: Database, down: string -> bool, alerts: seq<Alert>,
                             orders: seq<seq<(string, string)>>, alert: Alert)
    requires |orders| == |alerts|
  {
    exists key, u ::
      key in alert.labels && DutyFor(db, u, key, alert.labels[key]) && ToldAll(db, down, alerts, orders, alert, key)
  }

  ghost predicate ToldAll(db: Database, down: string -> bool, alerts: seq<Alert>,
                          orders: seq<seq<(string, string)>>, alert: Alert, key: string)
    requires |orders| == |alerts| && key in alert.labels
  {
    forall u :: DutyFor(db, u, key, alert.labels[key]) ==>
                  Notification(u.login, alert) in Notifications(Query(db, down), alerts, orders)
  }

  lemma EverybodyIsTold(db: Database, down: string -> bool, alerts: seq<Alert>, orders: seq<seq<(string, string)>>,
                        k: nat, q: string, v: User)
    requires |orders| == |alerts| && k < |alerts| && Iterates(orders[k], alerts[k].labels)
    requires (forall text :: !down(text)) && q in alerts[k].labels && DutyFor(db, v, q, alerts[k].labels[q])
    ensures AllToldFor(db, down, alerts, orders, alerts[k])
  {
    var find, alert := Query(db, down), alerts[k];
    var users := DutyUsers(find, orders[k]);
    NotifiedUsersCarryTheLabel(db, down, alert.labels, orders[k]);
    assert users != [];
    var key :| key in alert.labels && forall u :: u in users <==> DutyFor(db, u, key, alert.labels[key]);
    forall u | DutyFor(db, u, key, alert.labels[key])
      ensures Notification(u.login, alert) in Notifications(find, alerts, orders)
    {
      NotificationsExactly(find, alerts, orders, Notification(u.login, alert));
      assert NotifiedAt(find, alerts, orders, k, Notification(u.login, alert));
    }
    assert users[0] in users;
    assert DutyFor(db, users[0], key, alert.labels[key]) && ToldAll(db, down, alerts, orders, alert, key);
  }
}
