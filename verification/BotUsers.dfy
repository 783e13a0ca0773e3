/** What the one flag and the one login shared by all users of the bot mean for each of them. */
module BotUsers {
  import Commands
  import opened Bot

  /** All updates come from these users. */
  predicate From(events: seq<Event>, users: set<int>) {
    forall e :: e in events ==> e.user in users
  }

  /** Whoever has a command executed passed the password step earlier. */
  ghost predicate ExecutorsLoggedIn(log: seq<Entry>) {
    forall k :: 0 <= k < |log| && log[k].outcome.Executed? ==> LoggedInBefore(log, k, log[k].event.user)
  }

  ghost predicate LoggedInBefore(log: seq<Entry>, k: nat, user: int)
    requires k < |log|
  {
    exists p :: 0 <= p < k && IsCheck(log[p]) && log[p].outcome.ok && log[p].event.user == user
  }

  function IsLoginOf(user: int): Entry -> bool {
    (e: Entry) => IsLogin(e) && e.event.user == user
  }

  /** Every password is checked against the login its own sender entered last. */
  predicate OwnLoginsChecked(log: seq<Entry>) {
    forall k :: 0 <= k < |log| && IsCheck(log[k]) ==> OwnLoginChecked(log, k)
  }

  predicate OwnLoginChecked(log: seq<Entry>, k: nat)
    requires k < |log| && IsCheck(log[k])
  {
    var q := Latest(log[..k], IsLoginOf(log[k].event.user));
    q.Some? && log[q.value].outcome.login == log[k].outcome.login
  }

  lemma HistorySnoc(events: seq<Event>, e: Event)
    ensures StateAfter(events + [e]) == Handle(StateAfter(events), e).0
    ensures History(events + [e]) == History(events) + [NewEntry(StateAfter(events), e)]
  {
    assert (events + [e])[..|events|] == events;
  }

  lemma PrefixSnoc(es: seq<Event>, k: nat)
    requires k < |es|
    ensures StateAfter(es[..k + 1]) == Handle(StateAfter(es[..k]), es[k]).0
    ensures History(es[..k + 1]) == History(es[..k]) + [NewEntry(StateAfter(es[..k]), es[k])]
  {
    HistorySnoc(es[..k], es[k]);
    assert es[..k] + [es[k]] == es[..k + 1];
  }

  lemma HistoryOfFive(es: seq<Event>)
    requires |es| == 5
    ensures var s1 := Handle(FRESH, es[0]).0;
            var s2 := Handle(s1, es[1]).0;
            var s3 := Handle(s2, es[2]).0;
            var s4 := Handle(s3, es[3]).0;
            History(es) == [NewEntry(FRESH, es[0]), NewEntry(s1, es[1]), NewEntry(s2, es[2]), NewEntry(s3, es[3]),
                            NewEntry(s4, es[4])]
  {
    hide Handle;
    hide NewEntry;
    assert StateAfter([]) == FRESH && History([]) == [];
    hide StateAfter;
    hide History;
    assert es[..0] == [];
    PrefixSnoc(es, 0);
    PrefixSnoc(es, 1);
    PrefixSnoc(es, 2);
    PrefixSnoc(es, 3);
    PrefixSnoc(es, 4);
    assert es[..5] == es;
  }

  lemma {:induction false} HistoryEvents(events: seq<Event>)
    ensures forall k :: 0 <= k < |events| ==> History(events)[k].event == events[k]
  {
    if events != [] {
      HistoryEvents(events[..|events| - 1]);
    }
  }

  lemma AtMostOne(users: set<int>, a: int, b: int)
    requires a in users && b in users && |users| <= 1
    ensures a == b
  {
    if a != b {
      assert |{a, b}| <= |users| by { SubsetSize({a, b}, users); }
    }
  }

  lemma SubsetSize(part: set<int>, whole: set<int>)
    requires part <= whole
    ensures |part| <= |whole|
  {
    assert part + (whole - part) == whole;
  }

  lemma NoTwo(users: set<int>)
    requires forall x, y :: x in users && y in users ==> x == y
    ensures |users| <= 1
  {
    if x :| x in users {
      assert forall y :: y in users <==> y in {x};
      assert users == {x};
    } else {
      assert forall y :: y in users <==> y in {};
      assert users == {};
    }
  }

  lemma TwoOf(users: set<int>) returns (a: int, b: int)
    requires |users| > 1
    ensures a in users && b in users && a != b
  {
    if forall x, y :: x in users && y in users ==> x == y {
      NoTwo(users);
    }
    a, b :| a in users && b in users && a != b;
  }

  // ---------- who has logged in ----------

  /** One user logs in; another one, who never does, sends a command and confirms it. */
  function StrangersRun(insider: int, stranger: int): seq<Event> {
    [Start(insider), Text(insider, "a", true, {}), Text(insider, "p", true, {("a", "p")}),
     Text(stranger, "/status", true, {}), Button(stranger, true)]
  }

  lemma StatusCommand()
    ensures IsCommand("/status") && CommandName("/status") == "/status" && "/status" in COMMANDS
  {
    assert forall k :: 0 <= k < 7 ==> "/status"[k] != ' ';
    assert Commands.IndexOf("/status", ' ') == 7;
  }

  /** The stranger's command is executed although the stranger has never opened a dialogue. */
  lemma StrangerExecutes(insider: int, stranger: int)
    requires insider != stranger
    ensures var log := History(StrangersRun(insider, stranger));
            && log[4].outcome == Executed(Pending(stranger, "/status", "/status"))
            && log[4].event.user == stranger
            && forall k :: 0 <= k < 5 && log[k].event.user == stranger ==>
                             !log[k].outcome.AskedLogin? && !log[k].outcome.Checked?
  {
    hide CommandName;
    StatusCommand();
    hide History;
    HistoryOfFive(StrangersRun(insider, stranger));
  }

  /** That only people who have logged in themselves run commands holds for all runs exactly when the bot has no more
      than one user. */
  lemma {:induction false} ExecutorsLoggedInExactly(users: set<int>)
    ensures (forall events :: From(events, users) ==> ExecutorsLoggedIn(History(events))) <==> |users| <= 1
  {
    if |users| > 1 {
      var a, b := TwoOf(users);
      StrangerExecutes(a, b);
      var log := History(StrangersRun(a, b));
      assert From(StrangersRun(a, b), users);
      assert !LoggedInBefore(log, 4, log[4].event.user);
    } else {
      forall events | From(events, users) ensures ExecutorsLoggedIn(History(events)) {
        OneUserLogsIn(events, users);
      }
    }
  }

  lemma {:induction false} OneUserLogsIn(events: seq<Event>, users: set<int>)
    requires |users| <= 1 && From(events, users)
    ensures ExecutorsLoggedIn(History(events))
  {
    hide Justified;
    var log := History(events);
    HistoryEvents(events);
    forall k | 0 <= k < |log| && log[k].outcome.Executed? ensures LoggedInBefore(log, k, log[k].event.user) {
      ExecutedIsJustified(events, k);
      var i: nat, p: nat, q: nat :| Justified(log, k, i, p, q);
      CheckOfJustified(log, k, i, p, q);
      AtMostOne(users, events[p].user, events[k].user);
    }
  }

  lemma {:induction false} CheckOfJustified(log: seq<Entry>, k: nat, i: nat, p: nat, q: nat)
    requires k < |log| && Justified(log, k, i, p, q)
    ensures p < k && IsCheck(log[p]) && log[p].outcome.ok
  {
  }

  // ---------- whose login is checked ----------

  /** The second user's login arrives between the first user's login and password. */
  function CrossedRun(first: int, second: int): seq<Event> {
    [Start(first), Start(second), Text(first, "a", true, {}), Text(second, "b", true, {}),
     Text(first, "p", true, {("b", "p")})]
  }

  /** The first user is authenticated with the second user's login. */
  lemma CrossedLoginIsChecked(first: int, second: int)
    requires first != second
    ensures var log := History(CrossedRun(first, second));
            && log[2] == Entry(Text(first, "a", true, {}), LoginEntered("a"))
            && log[3] == Entry(Text(second, "b", true, {}), LoginEntered("b"))
            && log[4] == Entry(Text(first, "p", true, {("b", "p")}), Checked("b", "p", true))
  {
    hide History;
    HistoryOfFive(CrossedRun(first, second));
  }

  /** That passwords are checked against their sender's own login holds for all runs exactly when the bot has no more
      than one user. */
  lemma {:induction false} OwnLoginsCheckedExactly(users: set<int>)
    ensures (forall events :: From(events, users) ==> OwnLoginsChecked(History(events))) <==> |users| <= 1
  {
    if |users| > 1 {
      var a, b := TwoOf(users);
      CrossedLoginIsChecked(a, b);
      var log := History(CrossedRun(a, b));
      assert From(CrossedRun(a, b), users);
      assert forall j :: 0 <= j < 4 ==> log[..4][j] == log[j];
      assert !OwnLoginChecked(log, 4);
    } else {
      forall events | From(events, users) ensures OwnLoginsChecked(History(events)) {
        OneUserChecksOwn(events, users);
      }
    }
  }

  lemma {:induction false} OneUserChecksOwn(events: seq<Event>, users: set<int>)
    requires |users| <= 1 && From(events, users)
    ensures OwnLoginsChecked(History(events))
  {
    var log := History(events);
    HistoryEvents(events);
    HistoryOk(events);
    forall k | 0 <= k < |log| && IsCheck(log[k]) ensures OwnLoginChecked(log, k) {
      assert EntryOk(log, k);
      var user := log[k].event.user;
      forall j | 0 <= j < k ensures IsLogin(log[..k][j]) == IsLoginOf(user)(log[..k][j]) {
        AtMostOne(users, events[j].user, events[k].user);
      }
      SameLatest(log[..k], IsLogin, IsLoginOf(user));
    }
  }

  lemma {:induction false} SameLatest(log: seq<Entry>, kind: Entry -> bool, other: Entry -> bool)
    requires forall j :: 0 <= j < |log| ==> kind(log[j]) == other(log[j])
    ensures Latest(log, kind) == Latest(log, other)
  {
    if log != [] {
      var front := log[..|log| - 1];
      assert forall j :: 0 <= j < |front| ==> front[j] == log[j];
      SameLatest(front, kind, other);
    }
  }
}
