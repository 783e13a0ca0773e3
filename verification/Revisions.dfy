/** Choosing the ReplicaSet to roll back to, and listing the revisions a user may choose from. */
module Revisions {
  import opened Decimal
  import opened Wrappers
  import opened KubeObjects
  import opened Sorting
  import opened Sequences

  const REVISION_KEY := "deployment.kubernetes.io/revision"

  /** The order used before the search: strictly later creation time goes first. */
  predicate Newer(a: ReplicaSet, b: ReplicaSet) { a.created > b.created }

  predicate Annotated(rs: ReplicaSet) { REVISION_KEY in rs.annotations }

  function RevisionText(rs: ReplicaSet): string
    requires Annotated(rs)
  { rs.annotations[REVISION_KEY] }

  /** Match test of the explicit search: the texts are compared. */
  predicate HasText(rs: ReplicaSet, text: string) { Annotated(rs) && RevisionText(rs) == text }

  /** Match test of the implicit search: the parsed value is compared and the parse error dropped. */
  predicate ReadsAs(rs: ReplicaSet, n: Int64) { Annotated(rs) && ParseInt(RevisionText(rs)).value == n }

  /** Index of the first element that passes the test. */
  function First<T>(s: seq<T>, p: T -> bool): (r: Option<nat>)
    ensures r.Some? ==> r.value < |s| && p(s[r.value]) && forall i :: 0 <= i < r.value ==> !p(s[i])
    ensures r.None? ==> forall i :: 0 <= i < |s| ==> !p(s[i])
  {
    if s == [] then None
    else if p(s[0]) then Some(0)
    else match First(s[1..], p)
      case None => None
      case Some(i) => assert forall k :: 1 <= k < |s| ==> s[k] == s[1..][k - 1]; Some(i + 1)
  }

  function FindText(sets: seq<ReplicaSet>, text: string): (r: Option<nat>)
    ensures r.Some? ==> r.value < |sets| && HasText(sets[r.value], text)
                        && forall i :: 0 <= i < r.value ==> !HasText(sets[i], text)
    ensures r.None? ==> forall i :: 0 <= i < |sets| ==> !HasText(sets[i], text)
  {
    First(sets, rs => HasText(rs, text))
  }

  function FindValue(sets: seq<ReplicaSet>, n: Int64): (r: Option<nat>)
    ensures r.Some? ==> r.value < |sets| && ReadsAs(sets[r.value], n)
                        && forall i :: 0 <= i < r.value ==> !ReadsAs(sets[i], n)
    ensures r.None? ==> forall i :: 0 <= i < |sets| ==> !ReadsAs(sets[i], n)
  {
    First(sets, rs => ReadsAs(rs, n))
  }

  /** curRev - 1 in 64-bit arithmetic. */
  function Previous(n: Int64): Int64 {
    if n == MIN_INT64 then MAX_INT64 else n - 1
  }

  datatype Selection = Chosen(target: ReplicaSet) | Refused(why: Failure)

  /** The checks and the search between sorting the ReplicaSets and the update loop. */
  function Select(revision: Int64, dep: Deployment, sets: seq<ReplicaSet>): Selection {
    if |sets| < 2 then Refused(TooFewRevisions)
    else if REVISION_KEY !in dep.annotations then Refused(NoCurrentRevision)
    else
      var current := ParseInt(dep.annotations[REVISION_KEY]);
      if !current.ok then Refused(BadCurrentRevision)
      else if revision > 0 then
        match FindText(sets, Print(revision))
        case Some(i) => Chosen(sets[i])
        case None => Refused(RevisionNotFound(revision))
      else
        match FindValue(sets, Previous(current.value))
        case Some(i) => Chosen(sets[i])
        case None => Refused(PreviousNotFound(Previous(current.value)))
  }

  /** The deployment passes every check made before the search. */
  predicate Searchable(dep: Deployment, sets: seq<ReplicaSet>) {
    |sets| >= 2 && REVISION_KEY in dep.annotations && ParseInt(dep.annotations[REVISION_KEY]).ok
  }

  // ---------- the loops ----------

  method FindRevision(sets: array<ReplicaSet>, revision: Int64) returns (target: Option<ReplicaSet>)
    ensures target == match FindText(sets[..], Print(revision)) case None => None case Some(i) => Some(sets[i])
  {
    target := None;
    for i := 0 to sets.Length
      invariant target.None?
      invariant forall k :: 0 <= k < i ==> !HasText(sets[k], Print(revision))
    {
      if REVISION_KEY in sets[i].annotations {
        if sets[i].annotations[REVISION_KEY] == Print(revision) {
          target := Some(sets[i]);
          assert HasText(sets[..][i], Print(revision));
          assert forall k :: 0 <= k < i ==> !HasText(sets[..][k], Print(revision));
          break;
        }
      }
    }
  }

  method FindPrevious(sets: array<ReplicaSet>, revision: Int64) returns (target: Option<ReplicaSet>)
    ensures target == match FindValue(sets[..], revision) case None => None case Some(i) => Some(sets[i])
  {
    target := None;
    for i := 0 to sets.Length
      invariant target.None?
      invariant forall k :: 0 <= k < i ==> !ReadsAs(sets[k], revision)
    {
      if REVISION_KEY in sets[i].annotations {
        var parsed := ParseInt(sets[i].annotations[REVISION_KEY]);
        if parsed.value == revision {
          target := Some(sets[i]);
          assert ReadsAs(sets[..][i], revision);
          assert forall k :: 0 <= k < i ==> !ReadsAs(sets[..][k], revision);
          break;
        }
      }
    }
  }

  // ---------- listing ----------

  datatype RevisionInfo = RevisionInfo(revision: Int64, rsName: string, image: string)

  predicate Lower(a: RevisionInfo, b: RevisionInfo) { a.revision < b.revision }

  function FirstImage(template: PodTemplate): string {
    if |template.containers| > 0 then template.containers[0].image else ""
  }

  /** A ReplicaSet is listed when its revision annotation is present and not empty. */
  predicate Shown(rs: ReplicaSet) { Annotated(rs) && RevisionText(rs) != "" }

  function Entry(rs: ReplicaSet): RevisionInfo
    requires Shown(rs)
  { RevisionInfo(ScanInt(RevisionText(rs)), rs.name, FirstImage(rs.template)) }

  function Entries(sets: seq<ReplicaSet>): seq<RevisionInfo> {
    if sets == [] then []
    else
      var last := sets[|sets| - 1];
      Entries(sets[..|sets| - 1]) + (if Shown(last) then [Entry(last)] else [])
  }

  lemma {:induction false} EntriesMembers(sets: seq<ReplicaSet>, info: RevisionInfo)
    ensures info in Entries(sets) <==> exists rs :: rs in sets && Shown(rs) && Entry(rs) == info
  {
    hide Entry;
    hide Shown;
    if sets != [] {
      var front, last := sets[..|sets| - 1], sets[|sets| - 1];
      EntriesMembers(front, info);
      assert forall rs :: rs in sets <==> rs in front || rs == last;
    }
  }

  /** The ReplicaSet has a revision that is not empty. */
  predicate HasRevision(rs: ReplicaSet) {
    var key := "deployment.kubernetes.io/revision"; key in rs.annotations && rs.annotations[key] != ""
  }

  /** Its number as far as it can be read, its name, and the image of its first container. */
  function InfoOf(rs: ReplicaSet): RevisionInfo {
    var key := "deployment.kubernetes.io/revision";
    RevisionInfo(if key in rs.annotations then ScanInt(rs.annotations[key]) else 0, rs.name,
                 if rs.template.containers == [] then "" else rs.template.containers[0].image)
  }

  /** What is listed: one entry for each ReplicaSet with a revision. */
  lemma {:induction false} EntriesInOrder(sets: seq<ReplicaSet>)
    ensures InOrder(Entries(sets), sets, HasRevision, InfoOf)
  {
    hide ScanInt;
    hide InOrder;
    if sets == [] {
      InOrderEmpty(HasRevision, InfoOf);
    } else {
      var front, last := sets[..|sets| - 1], sets[|sets| - 1];
      EntriesInOrder(front);
      assert Entries(sets) == if HasRevision(last) then Entries(front) + [InfoOf(last)] else Entries(front);
      InOrderSnoc(Entries(front), front, HasRevision, InfoOf, last);
      assert front + [last] == sets;
    }
  }

  /** There is no check for a missing client: the first call goes through it and panics. */
  method ListAvailableRevisions(hasClient: bool, got: Result<Deployment>, listed: Result<seq<ReplicaSet>>)
    returns (result: Ending<Result<seq<RevisionInfo>>>)
    ensures result.Panicked? <==> !hasClient
    ensures hasClient ==>
              && (result.value.Ok? <==> got.Ok? && got.value.selectorOk && listed.Ok?)
              && (result.value.Ok? ==>
                    && multiset(result.value.value) == multiset(Entries(listed.value))
                    && forall i, j :: 0 <= i < j < |result.value.value| ==>
                                        result.value.value[i].revision <= result.value.value[j].revision)
              && (got.Err? ==> result.value == Err(got.error))
              && (got.Ok? && got.value.selectorOk && listed.Err? ==> result.value == Err(listed.error))
  {
    if !hasClient {
      return Panicked;
    }
    if got.Err? {
      return Returned(Err(got.error));
    }
    if !got.value.selectorOk {
      return Returned(Err("invalid selector"));
    }
    if listed.Err? {
      return Returned(Err(listed.error));
    }
    var items := listed.value;
    var found: seq<RevisionInfo> := [];
    for i := 0 to |items|
      invariant found == Entries(items[..i])
    {
      var rs := items[i];
      assert items[..i + 1] == items[..i] + [rs];
      var text := if REVISION_KEY in rs.annotations then rs.annotations[REVISION_KEY] else "";
      if text == "" {
        continue;
      }
      var rev := ScanInt(text);
      var image := "";
      if |rs.template.containers| > 0 {
        image := rs.template.containers[0].image;
      }
      found := found + [RevisionInfo(rev, rs.name, image)];
    }
    assert items[..|items|] == items;
    var a := new RevisionInfo[|found|](i requires 0 <= i < |found| => found[i]);
    assert a[..] == found;
    SortSlice(a, Lower);
    return Returned(Ok(a[..]));
  }

  // ---------- properties ----------

  /** The ReplicaSet matches what a rollback looks for when the deployment's own revision is current. */
  predicate Matches(revision: Int64, current: Int64, rs: ReplicaSet) {
    var key := "deployment.kubernetes.io/revision";
    && key in rs.annotations
    && if revision > 0 then rs.annotations[key] == Print(revision)
       else ParseInt(rs.annotations[key]).value == Sought(current)
  }

  /** One less, wrapping round. */
  function Sought(current: Int64): Int64 {
    if current == -0x8000_0000_0000_0000 then 0x7FFF_FFFF_FFFF_FFFF else current - 1
  }

  /** Exactly when each refusal happens, and otherwise which ReplicaSet is chosen: the first that matches. */
  lemma SelectExactly(revision: Int64, dep: Deployment, sets: seq<ReplicaSet>, why: Failure, target: ReplicaSet)
    ensures var key := "deployment.kubernetes.io/revision";
            var known := key in dep.annotations;
            var current := if known then ParseInt(dep.annotations[key]) else Parsed(0, false);
            var found := exists rs :: rs in sets && Matches(revision, current.value, rs);
            && (Select(revision, dep, sets) == Refused(why) <==>
                if |sets| < 2 then why == TooFewRevisions
                else if !known then why == NoCurrentRevision
                else if !current.ok then why == BadCurrentRevision
                else
                  !found && why == if revision > 0 then RevisionNotFound(revision)
                                   else PreviousNotFound(Sought(current.value)))
            && (Select(revision, dep, sets) == Chosen(target) <==>
                |sets| >= 2 && current.ok && FirstMatch(revision, current.value, sets, target))
  {
    hide ParseInt;
    hide Print;
    if REVISION_KEY in dep.annotations {
      var current := ParseInt(dep.annotations[REVISION_KEY]).value;
      if revision > 0 {
        assert forall rs :: Matches(revision, current, rs) <==> HasText(rs, Print(revision));
      } else {
        assert forall rs :: Matches(revision, current, rs) <==> ReadsAs(rs, Previous(current));
      }
      hide HasText;
      hide ReadsAs;
      hide Matches;
      FirstMatchIsFound(revision, current, sets, FoundAt(revision, current, sets), target);
    }
  }

  /** Where the search stops. */
  function FoundAt(revision: Int64, current: Int64, sets: seq<ReplicaSet>): Option<nat> {
    if revision > 0 then FindText(sets, Print(revision)) else FindValue(sets, Previous(current))
  }

  lemma FirstMatchIsFound(revision: Int64, current: Int64, sets: seq<ReplicaSet>, at: Option<nat>, target: ReplicaSet)
    requires at.Some? ==> at.value < |sets| && Matches(revision, current, sets[at.value])
                          && forall i :: 0 <= i < at.value ==> !Matches(revision, current, sets[i])
    requires at.None? ==> forall i :: 0 <= i < |sets| ==> !Matches(revision, current, sets[i])
    ensures at.Some? <==> exists rs :: rs in sets && Matches(revision, current, rs)
    ensures FirstMatch(revision, current, sets, target) <==> at.Some? && sets[at.value] == target
  {
    hide Matches;
  }

  /** The target matches, and nothing before it in the list does. */
  predicate FirstMatch(revision: Int64, current: Int64, sets: seq<ReplicaSet>, target: ReplicaSet) {
    exists i :: 0 <= i < |sets| && sets[i] == target && Matches(revision, current, sets[i])
                && forall j :: 0 <= j < i ==> !Matches(revision, current, sets[j])
  }

  /** For every outcome of the sort, an explicit rollback finds a target exactly when some ReplicaSet carries the
      number's text, and no ReplicaSet with that text was created strictly later than the one chosen. */
  lemma ExplicitTarget(revision: Int64, dep: Deployment, listing: seq<ReplicaSet>, order: seq<ReplicaSet>)
    requires revision > 0 && Searchable(dep, listing) && IsSorting(Newer, order, listing)
    ensures Select(revision, dep, order).Chosen? <==> exists rs :: rs in listing && HasText(rs, Print(revision))
    ensures Select(revision, dep, order).Chosen? ==>
              var target := Select(revision, dep, order).target;
              && target in listing && HasText(target, Print(revision))
              && forall rs :: rs in listing && HasText(rs, Print(revision)) ==> rs.created <= target.created
  {
    PermutationMembers(order, listing);
    var text := Print(revision);
    match FindText(order, text)
    case None =>
      forall rs | rs in listing ensures !HasText(rs, text) {
        var i :| 0 <= i < |order| && order[i] == rs;
      }
    case Some(i) =>
      assert order[i] in listing;
      forall rs | rs in listing && HasText(rs, text) ensures rs.created <= order[i].created {
        var j :| 0 <= j < |order| && order[j] == rs;
        assert j >= i;
      }
  }

  /** The text is carried by one ReplicaSet only. */
  predicate OwnText(rs: ReplicaSet, listing: seq<ReplicaSet>)
    requires Annotated(rs)
  {
    forall other :: other in listing && HasText(other, RevisionText(rs)) ==> other == rs
  }

  /** Any other ReplicaSet with the same text is strictly older. */
  predicate NewestOfText(rs: ReplicaSet, listing: seq<ReplicaSet>)
    requires Annotated(rs)
  {
    forall other :: other in listing && HasText(other, RevisionText(rs)) && other != rs ==> other.created < rs.created
  }

  /** Whatever the sort makes of the list, the revision selects this ReplicaSet. */
  ghost predicate AlwaysSelects(revision: Int64, dep: Deployment, listing: seq<ReplicaSet>, rs: ReplicaSet) {
    forall order :: IsSorting(Newer, order, listing) ==> Select(revision, dep, order) == Chosen(rs)
  }

  /** A listed revision number leads back to the very ReplicaSet it was listed for, for every outcome of the sort,
      exactly when that ReplicaSet's annotation is a canonical positive decimal and every other ReplicaSet with the same
      text is strictly older. */
  lemma {:induction false} ListedRevisionIsFound(rs: ReplicaSet, dep: Deployment, listing: seq<ReplicaSet>)
    requires rs in listing && Shown(rs) && Searchable(dep, listing) && Entry(rs).revision > 0
    ensures AlwaysSelects(Entry(rs).revision, dep, listing, rs) <==>
            Canonical(RevisionText(rs)) && NewestOfText(rs, listing)
  {
    var n := Entry(rs).revision;
    SpelledAsListed(rs);
    var order := SortingExists(Newer, listing);
    ExplicitTarget(n, dep, listing, order);
    if AlwaysSelects(n, dep, listing, rs) {
      forall other | other in listing && HasText(other, RevisionText(rs)) && other != rs
        ensures other.created < rs.created
      {
        if other.created >= rs.created {
          EqualsMaySwap(n, dep, listing, order, rs, other);
        }
      }
    } else if Canonical(RevisionText(rs)) && NewestOfText(rs, listing) {
      forall order | IsSorting(Newer, order, listing) ensures Select(n, dep, order) == Chosen(rs) {
        ExplicitTarget(n, dep, listing, order);
      }
    }
  }

  /** The text of a listed revision is what its number prints as exactly when it is canonical. */
  lemma SpelledAsListed(rs: ReplicaSet)
    requires Shown(rs) && Entry(rs).revision > 0
    ensures Print(Entry(rs).revision) == RevisionText(rs) <==> Canonical(RevisionText(rs))
  {
    CanonicalIffPrinted(RevisionText(rs));
    if Canonical(RevisionText(rs)) {
      var m: Int64 :| m > 0 && Print(m) == RevisionText(rs);
      ScanPrint(m);
    }
  }

  lemma FirstIsSelected(revision: Int64, dep: Deployment, sets: seq<ReplicaSet>, i: nat)
    requires revision > 0 && Searchable(dep, sets) && i < |sets| && HasText(sets[i], Print(revision))
    requires forall k :: 0 <= k < i ==> !HasText(sets[k], Print(revision))
    ensures Select(revision, dep, sets) == Chosen(sets[i])
  {
    hide ParseInt;
  }

  /** If rs is selected although another match was created at the same time, swapping the two is a possible outcome of
      the sort too, and there the other one is selected. */
  lemma EqualsMaySwap(revision: Int64, dep: Deployment, listing: seq<ReplicaSet>, order: seq<ReplicaSet>,
                      rs: ReplicaSet, other: ReplicaSet)
    requires revision > 0 && Searchable(dep, listing) && IsSorting(Newer, order, listing)
    requires Select(revision, dep, order) == Chosen(rs) && other in listing && other != rs
    requires HasText(other, Print(revision)) && other.created >= rs.created
    ensures !AlwaysSelects(revision, dep, listing, rs)
  {
    hide Print;
    hide ParseInt;
    hide HasText;
    PermutationMembers(order, listing);
    var i := FindText(order, Print(revision)).value;
    var j :| 0 <= j < |order| && order[j] == other;
    SwappedSelects(revision, dep, listing, order, i, j);
  }

  lemma SwappedSelects(revision: Int64, dep: Deployment, listing: seq<ReplicaSet>, order: seq<ReplicaSet>, i: nat,
                       j: nat)
    requires revision > 0 && Searchable(dep, listing) && IsSorting(Newer, order, listing)
    requires i < j < |order| && order[j].created >= order[i].created && HasText(order[j], Print(revision))
    requires forall k :: 0 <= k < i ==> !HasText(order[k], Print(revision))
    ensures exists swapped :: IsSorting(Newer, swapped, listing) && Select(revision, dep, swapped) == Chosen(order[j])
  {
    hide Print;
    hide ParseInt;
    hide HasText;
    SwapEquals(Newer, order, i, j);
    var swapped := order[i := order[j]][j := order[i]];
    PermutationMembers(swapped, listing);
    FirstIsSelected(revision, dep, swapped, i);
    assert IsSorting(Newer, swapped, listing);
  }

  /** Whatever is listed can be rolled back to: the ReplicaSet chosen has the listed name and image. */
  lemma ListRollbackAgreement(info: RevisionInfo, shown: seq<RevisionInfo>, dep: Deployment,
                              listing: seq<ReplicaSet>, order: seq<ReplicaSet>)
    requires Searchable(dep, listing) && IsSorting(Newer, order, listing)
    requires forall rs :: rs in listing && Shown(rs) ==> Canonical(RevisionText(rs)) && OwnText(rs, listing)
    requires IsSorting(Lower, shown, Entries(listing)) && info in shown
    ensures Select(info.revision, dep, order).Chosen?
    ensures var target := Select(info.revision, dep, order).target;
            target in listing && target.name == info.rsName && FirstImage(target.template) == info.image
  {
    PermutationMembers(shown, Entries(listing));
    EntriesMembers(listing, info);
    var rs :| rs in listing && Shown(rs) && Entry(rs) == info;
    CanonicalIffPrinted(RevisionText(rs));
    var m: Int64 :| m > 0 && Print(m) == RevisionText(rs);
    ScanPrint(m);
    ListedRevisionIsFound(rs, dep, listing);
  }

  lemma TextIffCanonical(rs: ReplicaSet, n: Int64)
    requires n > 0
    ensures HasText(rs, Print(n)) <==> ReadsAs(rs, n) && Canonical(RevisionText(rs))
  {
    if Annotated(rs) {
      var text := RevisionText(rs);
      ParsePrint(n);
      CanonicalIffPrinted(text);
      if Canonical(text) {
        var m: Int64 :| m > 0 && Print(m) == text;
        ParsePrint(m);
      }
    }
  }

  /** Comparing texts and comparing parsed values stop at the same ReplicaSet exactly when the first one whose value
      matches spells it canonically. */
  lemma ExplicitImplicitAgree(sets: seq<ReplicaSet>, n: Int64)
    requires n > 0
    ensures FindText(sets, Print(n)) == FindValue(sets, n) <==>
            (FindValue(sets, n).Some? ==> Canonical(RevisionText(sets[FindValue(sets, n).value])))
  {
    match (FindText(sets, Print(n)), FindValue(sets, n))
    case (Some(i), Some(j)) =>
      TextIffCanonical(sets[i], n);
      TextIffCanonical(sets[j], n);
    case (None, Some(j)) => TextIffCanonical(sets[j], n);
    case (Some(i), None) => TextIffCanonical(sets[i], n);
    case (None, None) =>
  }

  /** With canonical annotations, rolling back "one step" is rolling back to the current revision minus one. */
  lemma OneStepBack(revision: Int64, dep: Deployment, sets: seq<ReplicaSet>)
    requires revision <= 0 && Searchable(dep, sets)
    requires ParseInt(dep.annotations[REVISION_KEY]).value >= 2
    requires forall rs :: rs in sets && Annotated(rs) ==> Canonical(RevisionText(rs))
    ensures var n := ParseInt(dep.annotations[REVISION_KEY]).value - 1;
            var back, explicit := Select(revision, dep, sets), Select(n, dep, sets);
            back.Chosen? == explicit.Chosen? && (back.Chosen? ==> back == explicit)
  {
    ExplicitImplicitAgree(sets, ParseInt(dep.annotations[REVISION_KEY]).value - 1);
  }

  /** The ReplicaSet's annotation parses without error, to n. */
  predicate Numbered(rs: ReplicaSet, n: Int64) { Annotated(rs) && ParseInt(RevisionText(rs)) == Parsed(n, true) }

  /** Because the parse error is dropped, the implicit search can stop at a ReplicaSet whose annotation is no number
      at all. It cannot exactly when the number sought is none of the three values a failed parse returns. */
  lemma ImplicitTargetIsNumbered(dep: Deployment)
    requires REVISION_KEY in dep.annotations && ParseInt(dep.annotations[REVISION_KEY]).ok
    ensures var n := Previous(ParseInt(dep.annotations[REVISION_KEY]).value);
            (forall sets :: SortedBy(Newer, sets) && Select(0, dep, sets).Chosen? ==>
                Numbered(Select(0, dep, sets).target, n))
            <==> n !in {0, MAX_INT64, MIN_INT64}
  {
    var n := Previous(ParseInt(dep.annotations[REVISION_KEY]).value);
    if n in {0, MAX_INT64, MIN_INT64} {
      var text := if n == 0 then "x" else if n == MAX_INT64 then Nines(20) else "-" + Nines(20);
      UnparsableText(text, n);
      var rs := ReplicaSet("rs", map[REVISION_KEY := text], 0, PodTemplate(None, []));
      var sets := [rs, rs];
      assert SortedBy(Newer, sets);
      assert ReadsAs(sets[0], n);
      assert FindValue(sets, n).value == 0;
      assert Select(0, dep, sets) == Chosen(rs);
    } else {
      forall sets | Select(0, dep, sets).Chosen? ensures Numbered(Select(0, dep, sets).target, n) {
        FailedParse(RevisionText(Select(0, dep, sets).target));
      }
    }
  }

  lemma FailedParse(text: string)
    ensures !ParseInt(text).ok ==> ParseInt(text).value in {0, MAX_INT64, MIN_INT64}
  {
  }

  function Nines(k: nat): string { seq(k, i => '9') }

  lemma UnparsableText(text: string, n: Int64)
    requires (text == "x" && n == 0) || (text == Nines(20) && n == MAX_INT64)
             || (text == "-" + Nines(20) && n == MIN_INT64)
    ensures ParseInt(text) == Parsed(n, false)
  {
    if text != "x" {
      assert Unsign(text) == Nines(20);
      assert WithNines(20, 0) == WithNines(15, 99999) == WithNines(10, 9999999999)
          == WithNines(5, 999999999999999) == 99999999999999999999;
      NinesOverflow(20, 0);
    }
  }

  function WithNines(k: nat, acc: nat): nat {
    if k == 0 then acc else WithNines(k - 1, 10 * acc + 9)
  }

  lemma {:induction false} NinesOverflow(k: nat, acc: nat)
    requires acc <= MAX_UINT64 < WithNines(k, acc)
    ensures ParseUint(Nines(k), acc) == OutOfRange
  {
    assert Nines(k)[1..] == Nines(k - 1);
    if 10 * acc + 9 <= MAX_UINT64 {
      NinesOverflow(k - 1, 10 * acc + 9);
    }
  }
}
