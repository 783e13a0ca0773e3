/** Users, their labels, and the two queries that join them. Tables are sequences of rows; no key is assumed unique. */
module DutyRepository {
  import opened Sequences

  datatype User = User(id: int, login: string, password: string, isDuty: bool, jobStatus: string)

  datatype UserLabel = UserLabel(id: int, userId: int, tag: string)

  datatype Database = Database(users: seq<User>, labels: seq<UserLabel>)

  datatype Joined = Joined(user: User, tag: string)

  /** The label rows that belong to one user row, joined to it. */
  function JoinUser(u: User, labels: seq<UserLabel>): seq<Joined> {
    if labels == [] then []
    else
      var k := |labels| - 1;
      JoinUser(u, labels[..k]) + if labels[k].userId == u.id then [Joined(u, labels[k].tag)] else []
  }

  /** users JOIN user_labels ON user_labels.user_id = users.id. */
  function Join(users: seq<User>, labels: seq<UserLabel>): seq<Joined> {
    if users == [] then []
    else Join(users[..|users| - 1], labels) + JoinUser(users[|users| - 1], labels)
  }

  /** The joined rows of users on duty. */
  function OnDuty(rows: seq<Joined>): seq<Joined> {
    if rows == [] then []
    else OnDuty(rows[..|rows| - 1]) + if rows[|rows| - 1].user.isDuty then [rows[|rows| - 1]] else []
  }

  function DutyRows(db: Database): seq<Joined> { OnDuty(Join(db.users, db.labels)) }

  /** WHERE user_labels.label = label, keeping the user. */
  function UsersOf(rows: seq<Joined>, tag: string): seq<User> {
    if rows == [] then []
    else UsersOf(rows[..|rows| - 1], tag) + if rows[|rows| - 1].tag == tag then [rows[|rows| - 1].user] else []
  }

  function GetDutyUsersByLabel(db: Database, tag: string): seq<User> { UsersOf(DutyRows(db), tag) }

  /** The grouping loop: rows in whatever order the database returns them. */
  method GetDutyUsersWithLabels(rows: seq<Joined>) returns (result: map<User, seq<string>>)
    ensures result == Group(rows)
  {
    result := map[];
    for i := 0 to |rows|
      invariant result == Group(rows[..i])
    {
      assert rows[..i + 1][..i] == rows[..i];
      var user := rows[i].user;
      var labels := if user in result then result[user] else [];
      result := result[user := labels + [rows[i].tag]];
    }
    assert rows[..|rows|] == rows;
  }

  function Group(rows: seq<Joined>): map<User, seq<string>> {
    if rows == [] then map[]
    else
      var before, last := Group(rows[..|rows| - 1]), rows[|rows| - 1];
      before[last.user := LabelsOf(before, last.user) + [last.tag]]
  }

  function LabelsOf(grouped: map<User, seq<string>>, u: User): seq<string> {
    if u in grouped then grouped[u] else []
  }

  ghost function Total(grouped: map<User, seq<string>>, users: set<User>): nat
    requires users <= grouped.Keys
  {
    if users == {} then 0
    else
      var u :| u in users;
      |grouped[u]| + Total(grouped, users - {u})
  }

  /** The total does not depend on the order in which users are summed. */
  lemma {:induction false} TotalPick(grouped: map<User, seq<string>>, users: set<User>, u: User)
    requires users <= grouped.Keys && u in users
    ensures Total(grouped, users) == |grouped[u]| + Total(grouped, users - {u})
    decreases |users|
  {
    var v :| v in users && Total(grouped, users) == |grouped[v]| + Total(grouped, users - {v});
    if v != u {
      TotalPick(grouped, users - {v}, u);
      TotalPick(grouped, users - {u}, v);
      assert users - {v} - {u} == users - {u} - {v};
    }
  }

  lemma {:induction false} TotalSame(g: map<User, seq<string>>, h: map<User, seq<string>>, users: set<User>)
    requires users <= g.Keys && users <= h.Keys && forall u :: u in users ==> |g[u]| == |h[u]|
    ensures Total(g, users) == Total(h, users)
    decreases |users|
  {
    if users != {} {
      var u :| u in users;
      TotalPick(g, users, u);
      TotalPick(h, users, u);
      TotalSame(g, h, users - {u});
    }
  }

  lemma {:induction false} UsersOfCount(rows: seq<Joined>, u: User, tag: string)
    ensures multiset(UsersOf(rows, tag))[u] == multiset(rows)[Joined(u, tag)]
  {
    if rows != [] {
      UsersOfCount(rows[..|rows| - 1], u, tag);
      assert rows == rows[..|rows| - 1] + [rows[|rows| - 1]];
    }
  }

  lemma {:induction false} GroupCount(rows: seq<Joined>, u: User, tag: string)
    ensures multiset(LabelsOf(Group(rows), u))[tag] == multiset(rows)[Joined(u, tag)]
  {
    if rows != [] {
      GroupCount(rows[..|rows| - 1], u, tag);
      assert rows == rows[..|rows| - 1] + [rows[|rows| - 1]];
    }
  }

  /** The two queries agree for every database and whatever order each gets its rows in: a user occurs among the duty
      users of a label exactly as often as the label occurs in that user's list, and the list lengths add up to the
      number of joined duty rows. */
  lemma JoinGroupAgreement(db: Database, filtered: seq<Joined>, grouped: seq<Joined>, u: User, tag: string)
    requires multiset(filtered) == multiset(DutyRows(db)) && multiset(grouped) == multiset(DutyRows(db))
    ensures multiset(UsersOf(filtered, tag))[u] == multiset(LabelsOf(Group(grouped), u))[tag]
    ensures Total(Group(grouped), Group(grouped).Keys) == |DutyRows(db)|
  {
    UsersOfCount(filtered, u, tag);
    GroupCount(grouped, u, tag);
    GroupConserves(grouped);
    assert |grouped| == |multiset(grouped)| && |DutyRows(db)| == |multiset(DutyRows(db))|;
  }

  /** Grouping loses and invents nothing: the list lengths add up to the number of joined rows. */
  lemma {:induction false} GroupConserves(rows: seq<Joined>)
    ensures Total(Group(rows), Group(rows).Keys) == |rows|
  {
    if rows != [] {
      var before, last := Group(rows[..|rows| - 1]), rows[|rows| - 1];
      var after := Group(rows);
      GroupConserves(rows[..|rows| - 1]);
      TotalPick(after, after.Keys, last.user);
      assert after.Keys - {last.user} == before.Keys - {last.user};
      TotalSame(before, after, before.Keys - {last.user});
      if last.user in before {
        TotalPick(before, before.Keys, last.user);
      } else {
        assert before.Keys - {last.user} == before.Keys;
      }
    }
  }

  lemma {:induction false} JoinUserMembers(u: User, labels: seq<UserLabel>, row: Joined)
    ensures row in JoinUser(u, labels) <==>
            row.user == u && exists l :: l in labels && l.userId == u.id && l.tag == row.tag
  {
    if labels != [] {
      var k := |labels| - 1;
      JoinUserMembers(u, labels[..k], row);
      assert labels == labels[..k] + [labels[k]];
    }
  }

  lemma {:induction false} JoinMembers(users: seq<User>, labels: seq<UserLabel>, row: Joined)
    ensures row in Join(users, labels) <==>
            row.user in users && exists l :: l in labels && l.userId == row.user.id && l.tag == row.tag
  {
    if users != [] {
      var k := |users| - 1;
      JoinMembers(users[..k], labels, row);
      JoinUserMembers(users[k], labels, row);
      assert users == users[..k] + [users[k]];
    }
  }

  lemma {:induction false} OnDutyMembers(rows: seq<Joined>, row: Joined)
    ensures row in OnDuty(rows) <==> row in rows && row.user.isDuty
  {
    if rows != [] {
      OnDutyMembers(rows[..|rows| - 1], row);
    }
  }

  lemma {:induction false} UsersOfMembers(rows: seq<Joined>, tag: string, u: User)
    ensures u in UsersOf(rows, tag) <==> Joined(u, tag) in rows
  {
    if rows != [] {
      UsersOfMembers(rows[..|rows| - 1], tag, u);
    }
  }

  /** The user carries the label. */
  predicate Carries(db: Database, u: User, tag: string) {
    exists l :: l in db.labels && l.userId == u.id && l.tag == tag
  }

  /** The users found by label are exactly the users on duty who carry it. */
  lemma FoundUsers(db: Database, tag: string, u: User)
    ensures u in GetDutyUsersByLabel(db, tag) <==> u in db.users && u.isDuty && Carries(db, u, tag)
  {
    UsersOfMembers(DutyRows(db), tag, u);
    OnDutyMembers(Join(db.users, db.labels), Joined(u, tag));
    JoinMembers(db.users, db.labels, Joined(u, tag));
  }

  function WithTag(tag: string): Joined -> bool { (row: Joined) => row.tag == tag }

  function WithUser(u: User): Joined -> bool { (row: Joined) => row.user == u }

  function UserOf(row: Joined): User { row.user }

  function TagOf(row: Joined): string { row.tag }

  /** The users found by label are those of the joined rows with that label, in the order of the rows. */
  lemma {:induction false} UsersInOrder(rows: seq<Joined>, tag: string)
    ensures InOrder(UsersOf(rows, tag), rows, WithTag(tag), UserOf)
  {
    hide InOrder;
    if rows == [] {
      InOrderEmpty(WithTag(tag), UserOf);
    } else {
      var front, last := rows[..|rows| - 1], rows[|rows| - 1];
      UsersInOrder(front, tag);
      assert UsersOf(rows, tag) == if WithTag(tag)(last) then UsersOf(front, tag) + [UserOf(last)]
                                   else UsersOf(front, tag);
      InOrderSnoc(UsersOf(front, tag), front, WithTag(tag), UserOf, last);
      assert front + [last] == rows;
    }
  }

  /** The labels grouped under a user are those of the user's joined rows, in the order of the rows. */
  lemma {:induction false} LabelsInOrder(rows: seq<Joined>, u: User)
    ensures u in Group(rows) <==> exists row :: row in rows && row.user == u
    ensures InOrder(LabelsOf(Group(rows), u), rows, WithUser(u), TagOf)
  {
    hide InOrder;
    if rows == [] {
      InOrderEmpty(WithUser(u), TagOf);
    } else {
      var front, last := rows[..|rows| - 1], rows[|rows| - 1];
      LabelsInOrder(front, u);
      assert forall row :: row in rows <==> row in front || row == last;
      assert LabelsOf(Group(rows), u) == if WithUser(u)(last) then LabelsOf(Group(front), u) + [TagOf(last)]
                                         else LabelsOf(Group(front), u);
      InOrderSnoc(LabelsOf(Group(front), u), front, WithUser(u), TagOf, last);
      assert front + [last] == rows;
    }
  }

  /** How many label rows with this text belong to a user number. */
  function LabelRows(labels: seq<UserLabel>, id: int, tag: string): nat {
    if labels == [] then 0
    else LabelRows(labels[1..], id, tag) + if labels[0].userId == id && labels[0].tag == tag then 1 else 0
  }

  lemma {:induction false} LabelRowsSnoc(labels: seq<UserLabel>, l: UserLabel, id: int, tag: string)
    ensures LabelRows(labels + [l], id, tag)
            == LabelRows(labels, id, tag) + if l.userId == id && l.tag == tag then 1 else 0
  {
    if labels == [] {
      assert [] + [l] == [l] && [l][1..] == [];
    } else {
      assert (labels + [l])[1..] == labels[1..] + [l];
      LabelRowsSnoc(labels[1..], l, id, tag);
    }
  }

  lemma {:induction false} JoinUserCount(v: User, labels: seq<UserLabel>, u: User, tag: string)
    ensures multiset(JoinUser(v, labels))[Joined(u, tag)] == if v == u then LabelRows(labels, u.id, tag) else 0
  {
    if labels != [] {
      var front, last := labels[..|labels| - 1], labels[|labels| - 1];
      JoinUserCount(v, front, u, tag);
      assert front + [last] == labels;
      LabelRowsSnoc(front, last, u.id, tag);
    }
  }

  lemma {:induction false} JoinCount(users: seq<User>, labels: seq<UserLabel>, u: User, tag: string)
    ensures multiset(Join(users, labels))[Joined(u, tag)] == multiset(users)[u] * LabelRows(labels, u.id, tag)
  {
    if users != [] {
      var front, last := users[..|users| - 1], users[|users| - 1];
      JoinCount(front, labels, u, tag);
      JoinUserCount(last, labels, u, tag);
      JoinSplit(users, labels, Joined(u, tag));
      MembersSplit(users, u);
      hide Join;
      OneMore(multiset(front)[u], LabelRows(labels, u.id, tag));
    }
  }

  lemma JoinSplit(users: seq<User>, labels: seq<UserLabel>, row: Joined)
    requires users != []
    ensures multiset(Join(users, labels))[row]
            == multiset(Join(users[..|users| - 1], labels))[row] + multiset(JoinUser(users[|users| - 1], labels))[row]
  {
    hide JoinUser;
  }

  lemma MembersSplit(users: seq<User>, u: User)
    requires users != []
    ensures multiset(users)[u] == multiset(users[..|users| - 1])[u] + if users[|users| - 1] == u then 1 else 0
  {
    assert users[..|users| - 1] + [users[|users| - 1]] == users;
  }

  lemma OneMore(m: nat, n: nat)
    ensures (m + 1) * n == m * n + n
  {
  }

  lemma {:induction false} OnDutyCount(rows: seq<Joined>, row: Joined)
    ensures multiset(OnDuty(rows))[row] == if row.user.isDuty then multiset(rows)[row] else 0
  {
    if rows != [] {
      var front, last := rows[..|rows| - 1], rows[|rows| - 1];
      OnDutyCount(front, row);
      assert front + [last] == rows;
    }
  }

  /** Both queries see each pair of a user row on duty and one of its label rows, once for each such pair. */
  lemma DutyRowsCount(db: Database, u: User, tag: string)
    ensures multiset(DutyRows(db))[Joined(u, tag)]
            == if u.isDuty then multiset(db.users)[u] * LabelRows(db.labels, u.id, tag) else 0
  {
    OnDutyCount(Join(db.users, db.labels), Joined(u, tag));
    JoinCount(db.users, db.labels, u, tag);
  }
}
