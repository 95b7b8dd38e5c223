/**
 The two paginated listings. A client that steps the offset by the limit until there
 is no more sees every row exactly once, in order.
 */
module Paging {
  import opened Text
  import opened Drafting
  import opened History

  datatype Window<T> = Window(items: seq<T>, hasMore: bool)

  // offset(offset).limit(limit + 1), of which the first limit rows are shown.
  function WindowAt<T>(rows: seq<T>, offset: nat, limit: nat): Window<T> {
    var rest := if offset <= |rows| then rows[offset..] else [];
    var fetched := if limit + 1 <= |rest| then rest[..limit + 1] else rest;
    Window(if limit <= |fetched| then fetched[..limit] else fetched, |fetched| > limit)
  }

  // A client's walk from an offset on.
  function Walk<T>(rows: seq<T>, offset: nat, limit: nat): seq<T>
    requires limit >= 1
    decreases |rows| - offset
  {
    var window := WindowAt(rows, offset, limit);
    if window.hasMore then window.items + Walk(rows, offset + limit, limit) else window.items
  }

  // There is more exactly when a row exists beyond the window.
  lemma MoreMeansBeyond<T>(rows: seq<T>, offset: nat, limit: nat)
    ensures WindowAt(rows, offset, limit).hasMore <==> offset + limit < |rows|
    ensures offset + limit <= |rows| ==> WindowAt(rows, offset, limit).items == rows[offset..offset + limit]
    ensures offset <= |rows| < offset + limit ==> WindowAt(rows, offset, limit).items == rows[offset..]
    ensures offset >= |rows| ==> WindowAt(rows, offset, limit) == Window([], false)
  {
  }

  lemma {:induction false} WalkSeesTheRest<T>(rows: seq<T>, offset: nat, limit: nat)
    requires limit >= 1 && offset <= |rows|
    ensures Walk(rows, offset, limit) == rows[offset..]
    decreases |rows| - offset
  {
    MoreMeansBeyond(rows, offset, limit);
    if WindowAt(rows, offset, limit).hasMore {
      WalkSeesTheRest(rows, offset + limit, limit);
      assert rows[offset..] == rows[offset..offset + limit] + rows[offset + limit..];
    }
  }

  // The rows of list_owned_rule_drafts: the owner's rules that join with their current version, in
  // the order of title and then id.

  predicate Joins(store: Store, rule: RuleId) {
    && rule in store.rules && store.rules[rule].current.Some?
    && store.rules[rule].current.value in store.versions
    && store.versions[store.rules[rule].current.value].rule == rule
  }

  ghost predicate Before(store: Store, a: RuleId, b: RuleId) {
    && a in store.rules && b in store.rules
    && (Less(store.rules[a].title, store.rules[b].title) || (store.rules[a].title == store.rules[b].title && a < b))
  }

  ghost predicate InOrder(store: Store, rows: seq<RuleId>) {
    forall i, j :: 0 <= i < j < |rows| ==> Before(store, rows[i], rows[j])
  }

  ghost predicate RuleListing(store: Store, owner: OwnerId, rows: seq<RuleId>) {
    && (forall r :: r in rows <==> Owned(store, r, owner) && Joins(store, r))
    && InOrder(store, rows)
  }

  lemma OrderIsStrict(store: Store, a: RuleId, b: RuleId)
    requires Before(store, a, b)
    ensures !Before(store, b, a) && a != b
  {
    LessTotal(store.rules[a].title, store.rules[b].title);
  }

  // The order leaves nothing open: the listing is determined, so the windows of successive requests
  // are windows of one sequence.
  lemma {:induction false} OrderDetermines(store: Store, rows: seq<RuleId>, others: seq<RuleId>)
    requires InOrder(store, rows) && InOrder(store, others)
    requires forall r :: r in rows <==> r in others
    ensures rows == others
    decreases |rows|
  {
    if rows != [] {
      assert rows[0] in others;
    }
    if others != [] {
      assert others[0] in rows;
      var i :| 0 <= i < |rows| && rows[i] == others[0];
      var j :| 0 <= j < |others| && others[j] == rows[0];
      if i > 0 && j > 0 {
        OrderIsStrict(store, rows[0], rows[i]);
      }
      assert rows[0] == others[0];
      forall r ensures r in rows[1..] <==> r in others[1..] {
        HeadIsNotInTail(store, rows);
        HeadIsNotInTail(store, others);
        assert rows == [rows[0]] + rows[1..] && others == [others[0]] + others[1..];
        assert r in rows <==> r in others;
      }
      OrderDetermines(store, rows[1..], others[1..]);
    }
  }

  lemma HeadIsNotInTail(store: Store, rows: seq<RuleId>)
    requires rows != [] && InOrder(store, rows)
    ensures rows[0] !in rows[1..]
  {
    forall r | r in rows[1..] ensures r != rows[0] {
      var i :| 0 <= i < |rows[1..]| && rows[1..][i] == r;
      OrderIsStrict(store, rows[0], rows[i + 1]);
    }
  }

  lemma OrderIsTransitive(store: Store, a: RuleId, b: RuleId, c: RuleId)
    requires Before(store, a, b) && Before(store, b, c)
    ensures Before(store, a, c)
  {
    if Less(store.rules[a].title, store.rules[b].title) && Less(store.rules[b].title, store.rules[c].title) {
      LessTransitive(store.rules[a].title, store.rules[b].title, store.rules[c].title);
    }
  }

  // ORDER BY title, id: a new row put in its place.
  lemma {:induction false} PutInOrder(store: Store, rows: seq<RuleId>, r: RuleId) returns (more: seq<RuleId>)
    requires InOrder(store, rows) && r in store.rules && r !in rows && forall x :: x in rows ==> x in store.rules
    ensures InOrder(store, more) && forall x :: x in more <==> x == r || x in rows
  {
    if rows == [] {
      return [r];
    }
    LessTotal(store.rules[r].title, store.rules[rows[0]].title);
    assert rows[0] in rows && rows == [rows[0]] + rows[1..];
    if Before(store, r, rows[0]) {
      more := [r] + rows;
      forall i, j | 0 <= i < j < |more| ensures Before(store, more[i], more[j]) {
        if i == 0 && j > 1 {
          OrderIsTransitive(store, r, rows[0], rows[j - 1]);
        }
      }
    } else {
      var rest := PutInOrder(store, rows[1..], r);
      more := [rows[0]] + rest;
      forall i, j | 0 <= i < j < |more| ensures Before(store, more[i], more[j]) {
        if i == 0 {
          assert rest[j - 1] in rest;
          HeadIsBefore(store, rows, rest[j - 1]);
        }
      }
    }
  }

  lemma HeadIsBefore(store: Store, rows: seq<RuleId>, x: RuleId)
    requires InOrder(store, rows) && rows != []
    ensures x in rows[1..] ==> Before(store, rows[0], x)
  {
    if x in rows[1..] {
      var i :| 0 <= i < |rows[1..]| && rows[1..][i] == x;
      assert rows[i + 1] == x;
    }
  }

  lemma {:induction false} SomeOrder(store: Store, ids: set<RuleId>) returns (rows: seq<RuleId>)
    requires ids <= store.rules.Keys
    ensures InOrder(store, rows) && forall r :: r in rows <==> r in ids
    decreases |ids|
  {
    if ids == {} {
      return [];
    }
    var r :| r in ids;
    var rest := SomeOrder(store, ids - {r});
    rows := PutInOrder(store, rest, r);
  }

  // The database can always answer: there is a listing of any owner's rules.
  lemma RuleListingExists(store: Store, owner: OwnerId) returns (rows: seq<RuleId>)
    ensures RuleListing(store, owner, rows)
  {
    rows := SomeOrder(store, set r | r in store.rules && Owned(store, r, owner) && Joins(store, r));
  }

  // After any history, a walk through an owner's drafts shows every rule of that owner, each once:
  // the join on the current version drops none.
  lemma WalkShowsEveryRule(
    log: seq<Op>, owner: OwnerId, rows: seq<RuleId>, others: seq<RuleId>, limit: nat, rt: Runtime)
    requires Faithful(rt) && Serial(log, rt) && limit >= 1
    requires RuleListing(Replay(log, rt), owner, rows) && RuleListing(Replay(log, rt), owner, others)
    ensures Walk(rows, 0, limit) == others
    ensures forall r :: r in Walk(rows, 0, limit) <==> Owned(Replay(log, rt), r, owner)
    ensures forall i, j :: 0 <= i < j < |Walk(rows, 0, limit)| ==> Walk(rows, 0, limit)[i] != Walk(rows, 0, limit)[j]
  {
    var store := Replay(log, rt);
    WalkSeesTheRest(rows, 0, limit);
    assert rows[0..] == rows;
    OrderDetermines(store, rows, others);
    forall r | Owned(store, r, owner) ensures Joins(store, r) {
      NumberedWithoutGaps(log, r, 1, rt);
    }
    forall i, j | 0 <= i < j < |rows| ensures rows[i] != rows[j] {
      OrderIsStrict(store, rows[i], rows[j]);
    }
  }

  // The rows of list_owned_rule_versions: a rule's versions, newest first.

  ghost predicate VersionListing(store: Store, rule: RuleId, rows: seq<VersionId>) {
    && (forall v :: v in rows <==> v in store.versions && store.versions[v].rule == rule)
    && (forall i, j :: 0 <= i < j < |rows| ==>
          rows[i] in store.versions && rows[j] in store.versions
          && store.versions[rows[i]].number > store.versions[rows[j]].number)
  }

  function NewestFirst(chain: seq<Link>): (rows: seq<VersionId>)
    ensures |rows| == |chain|
  {
    if chain == [] then [] else [chain[|chain| - 1].version] + NewestFirst(chain[..|chain| - 1])
  }

  lemma {:induction false} NewestFirstAt(chain: seq<Link>, i: nat)
    requires i < |chain|
    ensures NewestFirst(chain)[i] == chain[|chain| - 1 - i].version
  {
    if i > 0 {
      NewestFirstAt(chain[..|chain| - 1], i - 1);
    }
  }

  // A strictly descending row of k numbers from 1 to k is k, ..., 1.
  lemma {:induction false} DescendingIsCounting(numbers: seq<int>, k: nat)
    requires forall i, j :: 0 <= i < j < |numbers| ==> numbers[i] > numbers[j]
    requires forall n :: n in numbers <==> 1 <= n <= k
    ensures |numbers| == k && forall i :: 0 <= i < k ==> numbers[i] == k - i
    decreases k
  {
    if numbers != [] {
      assert numbers[0] in numbers;
    }
    if k > 0 {
      assert k in numbers;
      var i :| 0 <= i < |numbers| && numbers[i] == k;
      assert numbers[0] == k;
      var rest := numbers[1..];
      forall n ensures n in rest <==> 1 <= n <= k - 1 {
        assert numbers == [numbers[0]] + rest;
        assert n in numbers <==> n == k || n in rest;
        if n in rest {
          var j :| 0 <= j < |rest| && rest[j] == n;
          assert numbers[j + 1] < numbers[0];
        }
      }
      DescendingIsCounting(rest, k - 1);
      forall j | 0 <= j < |numbers| ensures numbers[j] == k - j {
        assert j > 0 ==> numbers[j] == rest[j - 1];
      }
    }
  }

  // After any history, a walk through a rule's versions shows version k down to version 1.
  lemma WalkShowsEveryVersion(log: seq<Op>, rule: RuleId, rows: seq<VersionId>, limit: nat, rt: Runtime)
    requires Faithful(rt) && Serial(log, rt) && limit >= 1 && rule in ChainsOf(log)
    requires VersionListing(Replay(log, rt), rule, rows)
    ensures Walk(rows, 0, limit) == NewestFirst(ChainsOf(log)[rule])
  {
    WalkSeesTheRest(rows, 0, limit);
    assert rows[0..] == rows;
    HistoryKeepsVersions(log, rt);
    ListingIsTheChain(Replay(log, rt), ChainsOf(log), rule, rows, rt);
  }

  lemma ListingIsTheChain(store: Store, chains: Chains, rule: RuleId, rows: seq<VersionId>, rt: Runtime)
    requires Kept(store, chains, rt) && rule in chains && VersionListing(store, rule, rows)
    ensures rows == NewestFirst(chains[rule])
  {
    var chain, numbers := chains[rule], NumbersOf(store, rule, rows);
    forall n ensures n in numbers <==> 1 <= n <= |chain| {
      NumberIsListed(store, chains, rule, rows, numbers, n, rt);
    }
    DescendingIsCounting(numbers, |chain|);
    forall i | 0 <= i < |chain| ensures rows[i] == NewestFirst(chain)[i] {
      assert rows[i] in rows && numbers[i] == |chain| - i;
      OneRowForANumber(store, chains, rows[i], rt);
      NewestFirstAt(chain, i);
    }
  }

  ghost function NumbersOf(store: Store, rule: RuleId, rows: seq<VersionId>): (numbers: seq<int>)
    requires VersionListing(store, rule, rows)
    ensures |numbers| == |rows|
    ensures forall i :: 0 <= i < |rows| ==> rows[i] in store.versions && numbers[i] == store.versions[rows[i]].number
  {
    seq(|rows|, i requires 0 <= i < |rows| => assert rows[i] in rows; store.versions[rows[i]].number as int)
  }

  lemma NumberIsListed(
    store: Store, chains: Chains, rule: RuleId, rows: seq<VersionId>, numbers: seq<int>, n: int, rt: Runtime)
    requires Kept(store, chains, rt) && rule in chains && VersionListing(store, rule, rows)
    requires |numbers| == |rows|
    requires forall i :: 0 <= i < |rows| ==> rows[i] in store.versions && numbers[i] == store.versions[rows[i]].number
    ensures n in numbers <==> 1 <= n <= |chains[rule]|
  {
    if n in numbers {
      var i :| 0 <= i < |numbers| && numbers[i] == n;
      assert rows[i] in rows;
      OneRowForANumber(store, chains, rows[i], rt);
    }
    if 1 <= n <= |chains[rule]| {
      LinkOfKept(store, rule, chains[rule], n - 1, rt);
      var v := chains[rule][n - 1].version;
      assert v in rows;
      var i :| 0 <= i < |rows| && rows[i] == v;
      assert numbers[i] == n;
    }
  }

  lemma ListedVersion(store: Store, rule: RuleId, chain: seq<Link>, i: nat, rt: Runtime)
    requires ChainKept(store, rule, chain, rt) && i < |chain|
    ensures var v := NewestFirst(chain)[i];
            v in store.versions && store.versions[v].rule == rule && store.versions[v].number == |chain| - i
  {
    NewestFirstAt(chain, i);
    LinkOfKept(store, rule, chain, |chain| - 1 - i, rt);
  }

  lemma VersionIsListed(store: Store, chains: Chains, v: VersionId)
    requires v in store.versions && VersionChained(chains, v, store.versions[v])
    ensures v in NewestFirst(chains[store.versions[v].rule])
  {
    var chain := chains[store.versions[v].rule];
    NewestFirstAt(chain, |chain| - store.versions[v].number);
  }

  // The chain of a rule, newest first, is such a listing.
  lemma VersionListingExists(store: Store, chains: Chains, rule: RuleId, rt: Runtime)
    requires Kept(store, chains, rt) && rule in chains
    ensures VersionListing(store, rule, NewestFirst(chains[rule]))
  {
    DescendingListing(store, rule, chains[rule], rt);
    forall v | v in store.versions && store.versions[v].rule == rule ensures v in NewestFirst(chains[rule]) {
      assert VersionChained(chains, v, store.versions[v]);
      VersionIsListed(store, chains, v);
    }
  }

  lemma DescendingListing(store: Store, rule: RuleId, chain: seq<Link>, rt: Runtime)
    requires ChainKept(store, rule, chain, rt)
    ensures var rows := NewestFirst(chain);
            && (forall v :: v in rows ==> v in store.versions && store.versions[v].rule == rule)
            && (forall i, j :: 0 <= i < j < |rows| ==>
                  rows[i] in store.versions && rows[j] in store.versions
                  && store.versions[rows[i]].number > store.versions[rows[j]].number)
  {
    var rows := NewestFirst(chain);
    forall i | 0 <= i < |rows|
      ensures rows[i] in store.versions && store.versions[rows[i]].rule == rule
              && store.versions[rows[i]].number == |chain| - i
    {
      ListedVersion(store, rule, chain, i, rt);
    }
  }
}
