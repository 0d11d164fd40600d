/** Who has fixed the pages of the PMT cache: write threads, for each of the sub-pages that they write. This bounds the
    pages that cannot be evicted. */
module PmtUsers {
  import opened Sets
  import opened PmtLoads

  /** For each thread, the pages that it has fixed and not unfixed yet, with the number of times. */
  type Users = seq<multiset<nat>>

  ghost function Uses(users: Users, k: nat): nat {
    if users == [] then 0 else Uses(users[..|users| - 1], k) + users[|users| - 1][k]
  }

  ghost predicate UsedBy(fixed: map<nat, nat>, users: Users) {
    forall k: nat {:trigger Uses(users, k)} :: UsesIn(fixed, k) == Uses(users, k)
  }

  /** No thread has more than most pages fixed. */
  ghost predicate Sparing(users: Users, most: nat) { forall t | 0 <= t < |users| :: |users[t]| <= most }

  lemma {:induction false} NobodyUses(n: nat)
    ensures UsedBy(map[], seq(n, t => multiset{}))
  {
    var users: Users := seq(n, t => multiset{});
    if n == 0 {
    } else {
      NobodyUses(n - 1);
      var fewer: Users := seq(n - 1, t => multiset{});
      assert users[..n - 1] == fewer;
      forall k: nat ensures Uses(users, k) == UsesIn(map[], k) {
        assert UsesIn(map[], k) == Uses(fewer, k);
      }
    }
  }

  lemma {:induction false} UsesAfter(users: Users, t: nat, pages: multiset<nat>, k: nat)
    requires t < |users|
    ensures Uses(users[t := pages], k) + users[t][k] == Uses(users, k) + pages[k]
  {
    var n := |users| - 1;
    if t == n {
      assert users[t := pages][..n] == users[..n];
    } else {
      UsesAfter(users[..n], t, pages, k);
      assert users[t := pages][..n] == users[..n][t := pages];
    }
  }

  /** A thread fixes a page for a sub-page. */
  lemma FixUses(fixed: map<nat, nat>, users: Users, t: nat, k: nat)
    requires UsedBy(fixed, users) && t < |users|
    ensures UsedBy(WithUses(fixed, k, UsesIn(fixed, k) + 1), users[t := users[t] + multiset{k}])
  {
    var users' := users[t := users[t] + multiset{k}];
    forall j: nat ensures UsesIn(WithUses(fixed, k, UsesIn(fixed, k) + 1), j) == Uses(users', j) {
      UsesAfter(users, t, users[t] + multiset{k}, j);
      assert UsesIn(fixed, j) == Uses(users, j);
    }
  }

  /** It unfixes one of its pages. */
  lemma UnfixUses(fixed: map<nat, nat>, users: Users, t: nat, k: nat)
    requires UsedBy(fixed, users) && t < |users| && k in users[t]
    ensures UsesIn(fixed, k) > 0
    ensures UsedBy(WithUses(fixed, k, UsesIn(fixed, k) - 1), users[t := users[t] - multiset{k}])
  {
    var rest := users[t] - multiset{k};
    UsesAfter(users, t, rest, k);
    assert UsesIn(fixed, k) == Uses(users, k);
    var users' := users[t := rest];
    forall j: nat ensures UsesIn(WithUses(fixed, k, UsesIn(fixed, k) - 1), j) == Uses(users', j) {
      UsesAfter(users, t, rest, j);
      assert UsesIn(fixed, j) == Uses(users, j);
    }
  }

  /** The pages that are in a multiset. */
  ghost function PagesIn(pages: multiset<nat>): set<nat> { set k | k in pages }

  lemma {:induction false} PagesInSize(pages: multiset<nat>)
    ensures |PagesIn(pages)| <= |pages|
    decreases |pages|
  {
    if pages == multiset{} {
    } else {
      var k: nat :| k in pages;
      var rest := pages - multiset{k};
      PagesInSize(rest);
      SubsetSize(PagesIn(pages), PagesIn(rest) + {k});
      UnionSize(PagesIn(rest), {k});
    }
  }

  ghost function AllPages(users: Users): set<nat> {
    if users == [] then {} else AllPages(users[..|users| - 1]) + PagesIn(users[|users| - 1])
  }

  lemma {:induction false} UsedIsListed(users: Users, k: nat)
    requires Uses(users, k) > 0
    ensures k in AllPages(users)
  {
    var n := |users| - 1;
    if users[n][k] == 0 {
      UsedIsListed(users[..n], k);
    } else {
      assert k in users[n];
    }
  }

  lemma {:induction false} PagesAreFew(users: Users, most: nat)
    requires Sparing(users, most)
    ensures |AllPages(users)| <= |users| * most
  {
    if users == [] {
    } else {
      var n := |users| - 1;
      PagesAreFew(users[..n], most);
      PagesInSize(users[n]);
      UnionSize(AllPages(users[..n]), PagesIn(users[n]));
      assert |users| * most == n * most + most;
    }
  }

  /** There are at most as many fixed pages as the threads may fix. */
  lemma FixedAreFew(fixed: map<nat, nat>, users: Users, most: nat)
    requires UsedBy(fixed, users) && (forall k <- fixed :: fixed[k] > 0) && Sparing(users, most)
    ensures |fixed| <= |users| * most
  {
    forall k <- fixed.Keys ensures k in AllPages(users) {
      assert UsesIn(fixed, k) == Uses(users, k);
      UsedIsListed(users, k);
    }
    SubsetSize(fixed.Keys, AllPages(users));
    PagesAreFew(users, most);
  }
}
