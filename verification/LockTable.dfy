/** The page lock table: who holds which page, what one call does to it, and the slots that it is kept in. */
module LockTable {
  import opened Sets
  import opened LockRules

  const LOCKS_PER_OWNER := 8                  // MAX_NUM_LOCKS_PER_OWNER: the sub-pages of a page
  const MAX_LOCKS := LOCKS_PER_OWNER * NUM_OWNERS
  const NULL_LPN: nat := 0xFFFF_FFFF

  /** What each owner has on every locked page. */
  type Table = map<nat, Holders>

  function HoldersOf(t: Table, l: nat): Holders { if l in t then t[l] else Nobody() }

  function Held(t: Table, l: nat, o: Owner): LockType { HoldersOf(t, l)[o] }

  ghost function PagesOf(t: Table, o: Owner): set<nat> { set l | l in t && Held(t, l, o) != NULL_LOCK }

  /** What every operation keeps. */
  ghost predicate TableSafe(t: Table) { NULL_LPN !in t && forall l <- t :: Exclusive(t[l]) }

  /** The pages that have a slot without an owner. */
  ghost function Leaked(t: Table): set<nat> { set l | l in t && t[l] == Nobody() }

  /** No slot is without an owner, and no owner has more locks than it may. */
  ghost predicate TableOk(t: Table) {
    && TableSafe(t)
    && (forall l <- t :: t[l] != Nobody())
    && (forall o: Owner :: |PagesOf(t, o)| <= LOCKS_PER_OWNER)
  }

  // ---- there is always a slot left ------------------------------------------------------------

  ghost function PagesBelow(t: Table, n: nat): set<nat>
    requires n <= NUM_OWNERS
  {
    if n == 0 then {} else PagesBelow(t, n - 1) + PagesOf(t, n - 1)
  }

  lemma {:induction false} PagesAreBelow(t: Table, n: nat, o: Owner)
    requires o < n <= NUM_OWNERS
    ensures PagesOf(t, o) <= PagesBelow(t, n)
  {
    if o == n - 1 {
    } else {
      PagesAreBelow(t, n - 1, o);
    }
  }

  ghost function LocksBelow(t: Table, n: nat): nat
    requires n <= NUM_OWNERS
  {
    if n == 0 then 0 else LocksBelow(t, n - 1) + |PagesOf(t, n - 1)|
  }

  lemma {:induction false} PagesAreFewer(t: Table, n: nat)
    requires n <= NUM_OWNERS
    ensures |PagesBelow(t, n)| <= LocksBelow(t, n)
  {
    if n == 0 {
    } else {
      PagesAreFewer(t, n - 1);
      UnionSize(PagesBelow(t, n - 1), PagesOf(t, n - 1));
    }
  }

  /** n owners have at most n times the locks that one may have, and fewer if one of them has room. */
  lemma {:induction false} LocksAddUp(t: Table, n: nat, o: Owner)
    requires n <= NUM_OWNERS && (forall p: Owner :: |PagesOf(t, p)| <= LOCKS_PER_OWNER)
    ensures LocksBelow(t, n) <= LOCKS_PER_OWNER * n
    ensures o < n && |PagesOf(t, o)| < LOCKS_PER_OWNER ==> LocksBelow(t, n) < LOCKS_PER_OWNER * n
  {
    if n == 0 {
    } else {
      LocksAddUp(t, n - 1, o);
    }
  }

  lemma NobodyHolds(hs: Holders)
    ensures hs == Nobody() <==> forall p: Owner :: hs[p] == NULL_LOCK
  {
  }

  /** The ASSERT in assign_lock_for: an owner that is allowed one more page finds a free slot. */
  lemma SlotIsFree(t: Table, o: Owner)
    requires TableOk(t) && |PagesOf(t, o)| < LOCKS_PER_OWNER
    ensures |t.Keys| < MAX_LOCKS
  {
    forall l <- t ensures l in PagesBelow(t, NUM_OWNERS) {
      NobodyHolds(t[l]);
      var p: Owner :| t[l][p] != NULL_LOCK;
      PagesAreBelow(t, NUM_OWNERS, p);
      assert l in PagesOf(t, p);
    }
    SubsetSize(t.Keys, PagesBelow(t, NUM_OWNERS));
    PagesAreFewer(t, NUM_OWNERS);
    LocksAddUp(t, NUM_OWNERS, o);
  }

  // ---- what one call does to the table ----------------------------------------------------------

  /** After a grant on page l. */
  function Granted(t: Table, l: nat, o: Owner, grant: LockType): Table {
    t[l := Recorded(HoldersOf(t, l), o, grant)]
  }

  /** After o releases page l; a page that nobody holds any more leaves the table. */
  function Released(t: Table, l: nat, o: Owner): Table {
    var hs := HoldersOf(t, l)[o := NULL_LOCK];
    if Held(t, l, o) == NULL_LOCK then t else if hs == Nobody() then t - {l} else t[l := hs]
  }

  lemma GrantLeavesAnOwner(hs: Holders, o: Owner, asked: LockType, grant: LockType)
    requires Exclusive(hs) && asked != NULL_LOCK && IsStrongestGrant(hs, o, asked, grant)
    ensures Recorded(hs, o, grant) != Nobody()
  {
    GrantKeepsExclusive(hs, o, asked, grant);
    if forall p: Owner | p != o :: hs[p] == NULL_LOCK {
      assert CompatibleWithOthers(hs, o, Max(asked, hs[o]));
      assert Recorded(hs, o, grant)[o] != NULL_LOCK;
    } else {
      var p: Owner :| p != o && hs[p] != NULL_LOCK;
      assert Recorded(hs, o, grant)[p] != NULL_LOCK;
    }
  }

  /** page_lock keeps the table sound, leaves every other lock alone, and never lowers one that is held. */
  lemma GrantIsSafe(t: Table, l: nat, o: Owner, asked: LockType, grant: LockType)
    requires TableSafe(t) && l != NULL_LPN && IsStrongestGrant(HoldersOf(t, l), o, asked, grant)
    ensures TableSafe(Granted(t, l, o, grant))
    ensures forall k: nat, p: Owner :: Held(Granted(t, l, o, grant), k, p) ==
              if k == l && p == o then Max(grant, Held(t, l, o)) else Held(t, k, p)
  {
    GrantKeepsExclusive(HoldersOf(t, l), o, asked, grant);
  }

  lemma GrantedPages(t: Table, l: nat, o: Owner, grant: LockType, p: Owner)
    ensures PagesOf(Granted(t, l, o, grant), p) <= if p == o then PagesOf(t, p) + {l} else PagesOf(t, p)
  {
  }

  lemma GrantedFew(t: Table, l: nat, o: Owner, grant: LockType)
    requires |PagesOf(t, o) + {l}| <= LOCKS_PER_OWNER && forall p: Owner :: |PagesOf(t, p)| <= LOCKS_PER_OWNER
    ensures forall p: Owner :: |PagesOf(Granted(t, l, o, grant), p)| <= LOCKS_PER_OWNER
  {
    forall p: Owner ensures |PagesOf(Granted(t, l, o, grant), p)| <= LOCKS_PER_OWNER {
      GrantedPages(t, l, o, grant, p);
      SubsetSize(PagesOf(Granted(t, l, o, grant), p), if p == o then PagesOf(t, p) + {l} else PagesOf(t, p));
    }
  }

  /** A lock that is asked for within the limit leaves no slot without an owner. */
  lemma GrantIsOk(t: Table, l: nat, o: Owner, asked: LockType, grant: LockType)
    requires TableOk(t) && l != NULL_LPN && asked != NULL_LOCK && |PagesOf(t, o) + {l}| <= LOCKS_PER_OWNER
    requires IsStrongestGrant(HoldersOf(t, l), o, asked, grant)
    ensures TableOk(Granted(t, l, o, grant))
  {
    assert TableSafe(Granted(t, l, o, grant)) by {
      GrantIsSafe(t, l, o, asked, grant);
    }
    assert Recorded(HoldersOf(t, l), o, grant) != Nobody() by {
      GrantLeavesAnOwner(HoldersOf(t, l), o, asked, grant);
    }
    GrantedFew(t, l, o, grant);
  }

  lemma ReleaseKeepsExclusive(hs: Holders, o: Owner)
    requires Exclusive(hs)
    ensures Exclusive(hs[o := NULL_LOCK])
  {
    var rest := hs[o := NULL_LOCK];
    forall p: Owner, q: Owner | p != q ensures ExclusivePair(rest[p], rest[q]) {
      assert ExclusivePair(hs[p], hs[q]);
    }
  }

  /** page_unlock takes away exactly one lock. */
  lemma ReleaseIsSafe(t: Table, l: nat, o: Owner)
    requires TableSafe(t)
    ensures TableSafe(Released(t, l, o)) && (TableOk(t) ==> TableOk(Released(t, l, o)))
    ensures forall k: nat, p: Owner ::
      Held(Released(t, l, o), k, p) == if k == l && p == o then NULL_LOCK else Held(t, k, p)
  {
    var u := Released(t, l, o);
    ReleaseKeepsExclusive(HoldersOf(t, l), o);
    forall k: nat, p: Owner ensures Held(u, k, p) == if k == l && p == o then NULL_LOCK else Held(t, k, p) {
      assert HoldersOf(u, l) == HoldersOf(t, l)[o := NULL_LOCK];
    }
    forall p: Owner ensures |PagesOf(u, p)| <= |PagesOf(t, p)| {
      SubsetSize(PagesOf(u, p), PagesOf(t, p));
    }
  }

  // ---- several calls in a row ------------------------------------------------------------------------

  /** What page_lock grants. */
  ghost function Strongest(hs: Holders, o: Owner, asked: LockType): (grant: LockType)
    ensures IsStrongestGrant(hs, o, asked, grant)
  {
    StrongestExists(hs, o, asked);
    var grant: LockType :| IsStrongestGrant(hs, o, asked, grant);
    grant
  }

  lemma StrongestExists(hs: Holders, o: Owner, asked: LockType)
    ensures exists grant: LockType :: IsStrongestGrant(hs, o, asked, grant)
  {
    var h: LockType := NULL_LOCK;
    for p := 0 to NUM_OWNERS
      invariant forall q: Owner | q < p && q != o :: hs[q] <= h
      invariant h != NULL_LOCK ==> exists q: Owner :: q != o && hs[q] == h
    {
      if p != o && hs[p] > h {
        h := hs[p];
        assert p != o && hs[p as Owner] == h;
      }
    }
    GrantIsStrongest(hs, o, asked, h);
  }

  /** Owner o calls page_lock for the pages ls, in order. */
  ghost function Locking(t: Table, o: Owner, asked: LockType, ls: seq<nat>): Table {
    if ls == [] then t
    else
      var u, l := Locking(t, o, asked, ls[..|ls| - 1]), ls[|ls| - 1];
      Granted(u, l, o, Strongest(HoldersOf(u, l), o, asked))
  }

  /** It calls page_unlock for them. */
  function Unlocking(t: Table, o: Owner, ls: seq<nat>): Table {
    if ls == [] then t else Released(Unlocking(t, o, ls[..|ls| - 1]), ls[|ls| - 1], o)
  }

  /** Asking again gets the same. */
  lemma AskedAgain(hs: Holders, o: Owner, asked: LockType)
    requires Exclusive(hs)
    ensures var again := LockedOne(hs, o, asked); LockedOne(again, o, asked) == again
  {
    var grant := Strongest(hs, o, asked);
    var again := Recorded(hs, o, grant);
    StrongestAboveHeld(hs, o, asked, grant);
    GrantKeepsExclusive(hs, o, asked, grant);
    forall t: LockType ensures CompatibleWithOthers(again, o, t) <==> CompatibleWithOthers(hs, o, t) {
      assert forall p: Owner | p != o :: again[p] == hs[p];
    }
    StrongestAboveHeld(again, o, asked, Strongest(again, o, asked));
  }

  /** u is t with a lock on each of the pages ls, as strong as the other owners let it be. */
  ghost predicate LockedEach(t: Table, u: Table, o: Owner, asked: LockType, ls: seq<nat>) {
    && u.Keys == t.Keys + Elems(ls)
    && forall l {:trigger u[l]} | l in u :: u[l] == if l in ls then LockedOne(HoldersOf(t, l), o, asked) else t[l]
  }

  ghost function LockedOne(hs: Holders, o: Owner, asked: LockType): Holders {
    Recorded(hs, o, Strongest(hs, o, asked))
  }

  /** The pages are locked as if each call were the only one. */
  lemma {:induction false} LockingIs(t: Table, o: Owner, asked: LockType, ls: seq<nat>)
    requires TableSafe(t) && NULL_LPN !in ls
    ensures TableSafe(Locking(t, o, asked, ls)) && LockedEach(t, Locking(t, o, asked, ls), o, asked, ls)
  {
    if ls == [] {
    } else {
      var init, l := ls[..|ls| - 1], ls[|ls| - 1];
      var u := Locking(t, o, asked, init);
      LockingIs(t, o, asked, init);
      assert ls == init + [l];
      GrantIsSafe(u, l, o, asked, Strongest(HoldersOf(u, l), o, asked));
      OneMoreLocked(t, u, o, asked, init, l);
    }
  }

  lemma OneMoreLocked(t: Table, u: Table, o: Owner, asked: LockType, ls: seq<nat>, l: nat)
    requires TableSafe(t) && LockedEach(t, u, o, asked, ls)
    ensures LockedEach(t, u[l := LockedOne(HoldersOf(u, l), o, asked)], o, asked, ls + [l])
  {
    NobodyExcludes();
    AskedAgain(HoldersOf(t, l), o, asked);
    assert HoldersOf(u, l) == if l in ls then LockedOne(HoldersOf(t, l), o, asked) else HoldersOf(t, l);
  }

  /** The locks on these pages go, and no others. */
  lemma {:induction false} UnlockingIs(t: Table, o: Owner, ls: seq<nat>)
    requires TableSafe(t)
    ensures var u := Unlocking(t, o, ls);
      && TableSafe(u) && (TableOk(t) ==> TableOk(u))
      && forall l: nat, p: Owner :: Held(u, l, p) == if p == o && l in ls then NULL_LOCK else Held(t, l, p)
  {
    if ls == [] {
    } else {
      var init, l := ls[..|ls| - 1], ls[|ls| - 1];
      UnlockingIs(t, o, init);
      assert ls == init + [l];
      ReleaseIsSafe(Unlocking(t, o, init), l, o);
    }
  }

  lemma NobodyExcludes()
    ensures Exclusive(Nobody())
  {
  }

  // ---- slots without an owner -----------------------------------------------------------------------

  /** page_lock.h lets an owner ask for the null lock to see what it has. For a page that nobody has locked this takes a
      slot all the same; nothing else does that, and a lock of the page by an owner puts it right. */
  lemma WhatLeaks(t: Table, l: nat, o: Owner, asked: LockType, grant: LockType)
    requires TableSafe(t) && IsStrongestGrant(HoldersOf(t, l), o, asked, grant)
    ensures var more := if asked == NULL_LOCK && HoldersOf(t, l) == Nobody() then {l} else {};
      Leaked(Granted(t, l, o, grant)) == Leaked(t) - {l} + more
  {
    var hs := HoldersOf(t, l);
    if asked != NULL_LOCK {
      GrantLeavesAnOwner(hs, o, asked, grant);
    } else {
      GrantKeepsExclusive(hs, o, asked, grant);
    }
  }

  /** page_unlock gives back no such slot. */
  lemma LeakedStays(t: Table, l: nat, o: Owner)
    ensures Leaked(Released(t, l, o)) == Leaked(t)
  {
    assert l in Leaked(t) ==> Held(t, l, o) == NULL_LOCK;
  }

  /** The table after owner 0 has asked for what it has on each of n pages. */
  function Queried(n: nat): Table { if n == 0 then map[] else Granted(Queried(n - 1), n - 1, 0, NULL_LOCK) }

  /** As many queries as there are slots take all of them, though nobody holds a lock: the ASSERT in assign_lock_for
      fails for the next page. */
  lemma {:induction false} QueriesTakeAll(n: nat)
    requires n < NULL_LPN
    ensures |Queried(n).Keys| == n && Leaked(Queried(n)) == Queried(n).Keys
    ensures TableSafe(Queried(n)) && IsStrongestGrant(HoldersOf(Queried(n), n), 0, NULL_LOCK, NULL_LOCK)
    ensures forall l <- Queried(n) :: l < n
  {
    if n == 0 {
    } else {
      QueriesTakeAll(n - 1);
      assert Queried(n) == Queried(n - 1)[n - 1 := Nobody()];
      assert Queried(n).Keys == Queried(n - 1).Keys + {n - 1};
    }
  }

  // ---- the table in DRAM --------------------------------------------------------------------------

  /** The slots hold the table: one slot for each locked page, with its holders; nobody holds a free slot. */
  ghost predicate Slots(lpns: seq<nat>, hs: seq<Holders>, t: Table) {
    && |hs| == |lpns| && Distinct(lpns)
    && (forall i | 0 <= i < |lpns| && lpns[i] == NULL_LPN :: hs[i] == Nobody())
    && (forall i | 0 <= i < |lpns| && lpns[i] != NULL_LPN :: lpns[i] in t && hs[i] == t[lpns[i]])
    && (forall l <- t :: l in lpns)
  }

  lemma SlotTaken(lpns: seq<nat>, hs: seq<Holders>, t: Table, i: nat, l: nat, h: Holders)
    requires Slots(lpns, hs, t) && i < |lpns| && l != NULL_LPN && NULL_LPN !in t
    requires if l in t then lpns[i] == l else lpns[i] == NULL_LPN
    ensures Slots(lpns[i := l], hs[i := h], t[l := h])
  {
    var lpns', t' := lpns[i := l], t[l := h];
    forall k <- t' ensures k in lpns' {
      if k == l {
        assert lpns'[i] == l;
      } else {
        var j :| 0 <= j < |lpns| && lpns[j] == k;
        assert lpns'[j] == k;
      }
    }
    assert l !in t ==> l !in lpns;
  }

  lemma SlotFreed(lpns: seq<nat>, hs: seq<Holders>, t: Table, i: nat, l: nat)
    requires Slots(lpns, hs, t) && i < |lpns| && l != NULL_LPN && lpns[i] == l
    ensures Slots(lpns[i := NULL_LPN], hs[i := Nobody()], t - {l})
  {
    var lpns' := lpns[i := NULL_LPN];
    forall k <- t - {l} ensures k in lpns' {
      var j :| 0 <= j < |lpns| && lpns[j] == k;
      assert lpns'[j] == k;
    }
  }

  /** The slot after a grant. */
  lemma GrantRecorded(lpns: seq<nat>, hs: seq<Holders>, t: Table, i: nat, l: nat, o: Owner, asked: LockType,
                      grant: LockType)
    requires TableSafe(t) && Slots(lpns, hs, t) && i < |lpns| && l != NULL_LPN
    requires if l in t then lpns[i] == l else lpns[i] == NULL_LPN
    requires IsStrongestGrant(HoldersOf(t, l), o, asked, grant)
    ensures var u := Granted(t, l, o, grant);
      TableSafe(u) && Slots(lpns[i := l], hs[i := Recorded(HoldersOf(t, l), o, grant)], u) && u.Keys == t.Keys + {l}
  {
    GrantIsSafe(t, l, o, asked, grant);
    SlotTaken(lpns, hs, t, i, l, Recorded(HoldersOf(t, l), o, grant));
  }

  lemma UpdateSame(lpns: seq<nat>, i: nat)
    requires i < |lpns|
    ensures lpns[i := lpns[i]] == lpns
  {
  }

  lemma SlotKnown(lpns: seq<nat>, hs: seq<Holders>, t: Table, i: nat, l: nat)
    requires Slots(lpns, hs, t) && i < |lpns| && lpns[i] == l != NULL_LPN
    ensures l in t && t.Keys + {l} == t.Keys && lpns[i := l] == lpns && hs[i] == HoldersOf(t, l)
  {
  }

  /** The slot after a release. */
  lemma ReleaseRecorded(lpns: seq<nat>, hs: seq<Holders>, t: Table, i: nat, l: nat, o: Owner)
    requires TableSafe(t) && Slots(lpns, hs, t) && i < |lpns| && lpns[i] == l != NULL_LPN && hs[i][o] != NULL_LOCK
    ensures Held(t, l, o) != NULL_LOCK
    ensures var h, u := hs[i][o := NULL_LOCK], Released(t, l, o);
      && TableSafe(u) && Slots(if h == Nobody() then lpns[i := NULL_LPN] else lpns, hs[i := h], u)
      && |u.Keys| == if h == Nobody() then |t.Keys| - 1 else |t.Keys|
  {
    var h := hs[i][o := NULL_LOCK];
    SlotKnown(lpns, hs, t, i, l);
    ReleaseIsSafe(t, l, o);
    SlotTaken(lpns, hs, t, i, l, h);
    if h == Nobody() {
      SlotFreed(lpns, hs, t, i, l);
      assert (t - {l}).Keys == t.Keys - {l};
    } else {
      assert t[l := h].Keys == t.Keys;
    }
  }

  lemma FreeSlot(lpns: seq<nat>, pages: set<nat>)
    requires Distinct(lpns) && |pages| < |lpns|
    requires (forall i | 0 <= i < |lpns| && lpns[i] != NULL_LPN :: lpns[i] in pages)
    ensures NULL_LPN in lpns
  {
    if NULL_LPN !in lpns {
      ElemsSize(lpns);
      SubsetSize(Elems(lpns), pages);
    }
  }

  /** No page has two slots. */
  ghost predicate Distinct(lpns: seq<nat>) {
    forall i, j | 0 <= i < j < |lpns| && lpns[i] == lpns[j] :: lpns[i] == NULL_LPN
  }
}
