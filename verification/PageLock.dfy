/** The page locks: a fixed number of slots in DRAM, each with a page and a word that packs its holders. */
module PageLock {
  import opened LockRules
  import opened LockWords
  import opened LockTable

  class PageLocks {
    const lpns: array<nat>          // PL_LPN: the locked page of each slot, NULL_LPN if free
    const owners: array<bv32>       // PL_OWNERS_INFO
    var numLocks: nat
    var released: bool              // SIG_LOCK_RELEASED in g_scheduler_signals
    ghost var table: Table
    ghost var holders: seq<Holders> // what the words of the slots say

    ghost predicate Arrays()
    {
      (lpns as object) != (owners as object) && lpns.Length == MAX_LOCKS && owners.Length == MAX_LOCKS
    }

    ghost predicate Valid()
      reads this, lpns, owners
    {
      && Arrays() && TableSafe(table) && numLocks == |table.Keys|
      && Slots(lpns[..], holders, table) && Unpacked(owners[..], holders)
    }

    /** page_lock_init */
    constructor ()
      ensures Valid() && table == map[] && fresh(lpns) && fresh(owners)
    {
      lpns := new nat[MAX_LOCKS](_ => NULL_LPN);
      owners := new bv32[MAX_LOCKS](_ => 0);
      numLocks, released, table, holders := 0, false, map[], seq(MAX_LOCKS, i => Nobody());
      new;
      ZeroMeansNobody(0);
    }

    /** find_lpn: a slot that holds l, or MAX_LOCKS. */
    method Find(l: nat) returns (i: nat)
      requires lpns.Length == MAX_LOCKS
      ensures i <= MAX_LOCKS
      ensures if i < MAX_LOCKS then lpns[i] == l else l !in lpns[..]
    {
      i := 0;
      while i < MAX_LOCKS && lpns[i] != l
        invariant i <= MAX_LOCKS && l !in lpns[..i]
      {
        i := i + 1;
      }
    }
  
    /** assign_lock_for: a free slot for page l. */
    method AssignLockFor(l: nat) returns (i: nat)
      requires Valid() && l != NULL_LPN && l !in table && |table.Keys| < MAX_LOCKS
      modifies this`numLocks, lpns
      ensures i < MAX_LOCKS && old(lpns[i]) == NULL_LPN && lpns[..] == old(lpns[..])[i := l]
      ensures numLocks == old(numLocks) + 1
    {
      FreeSlot(lpns[..], table.Keys);
      i := Find(NULL_LPN);
      lpns[i] := l;
      numLocks := numLocks + 1;
    }

    /** get_highest_lock_except_owner */
    method HighestExcept(word: bv32, o: Owner) returns (h: LockType)
      ensures IsOthersHighest(Unpack(word), o, h)
    {
      h := NULL_LOCK;
      if word == 0 {
        ZeroMeansNobody(word);
        return;
      }
      ghost var hs := Unpack(word);
      for p := 0 to NUM_OWNERS
        invariant forall q: Owner | q < p && q != o :: hs[q] <= h
        invariant h != NULL_LOCK ==> exists q: Owner :: q != o && hs[q] == h
      {
        if p != o && LockOf(word, p) > h {
          h := LockOf(word, p);
          assert hs[p] == h;
        }
      }
    }

    /** The slot of page l, taken now if the page was not locked. */
    method SlotFor(l: nat) returns (i: nat)
      requires Valid() && l != NULL_LPN && (l in table || numLocks < MAX_LOCKS)
      modifies this`numLocks, lpns
      ensures i < MAX_LOCKS && lpns[..] == old(lpns[..])[i := l] && numLocks == |table.Keys + {l}|
      ensures old(lpns[i]) == if l in table then l else NULL_LPN
      ensures |holders| == MAX_LOCKS && holders[i] == HoldersOf(table, l)
    {
      i := Find(l);
      if i >= MAX_LOCKS {
        i := NewSlot(l);
      } else {
        SlotKnown(lpns[..], holders, table, i, l);
      }
    }

    method NewSlot(l: nat) returns (i: nat)
      requires Valid() && l != NULL_LPN && l !in lpns[..] && (l in table || numLocks < MAX_LOCKS)
      modifies this`numLocks, lpns
      ensures i < MAX_LOCKS && lpns[..] == old(lpns[..])[i := l] && numLocks == |table.Keys + {l}|
      ensures l !in table && old(lpns[i]) == NULL_LPN && |holders| == MAX_LOCKS && holders[i] == Nobody()
    {
      assert l !in table;
      i := AssignLockFor(l);
    }

    /** page_lock: the strongest lock up to the one asked for, or held, that is compatible with the other owners'. A
        page that has no slot takes one, and the code asserts that there is one. */
    method Lock(o: Owner, l: nat, asked: LockType) returns (grant: LockType)
      requires Valid() && l != NULL_LPN && (l in table || numLocks < MAX_LOCKS)
      modifies this, lpns, owners
      ensures Valid() && released == old(released)
      ensures IsStrongestGrant(HoldersOf(old(table), l), o, asked, grant)
      ensures table == Granted(old(table), l, o, grant)
    {
      ghost var slots := lpns[..];
      var i := SlotFor(l);
      grant := LockSlot(i, o, l, asked, slots);
    }

    /** The rest of page_lock, in slot i. */
    method LockSlot(i: nat, o: Owner, l: nat, asked: LockType, ghost slots: seq<nat>) returns (grant: LockType)
      requires Arrays() && TableSafe(table) && Slots(slots, holders, table) && Unpacked(owners[..], holders)
      requires i < |slots| == |holders| == MAX_LOCKS && lpns[..] == slots[i := l] && numLocks == |table.Keys + {l}|
      requires slots[i] == (if l in table then l else NULL_LPN) && l != NULL_LPN && holders[i] == HoldersOf(table, l)
      modifies this`numLocks, this`table, this`holders, lpns, owners
      ensures Valid() && table == Granted(old(table), l, o, grant)
      ensures IsStrongestGrant(HoldersOf(old(table), l), o, asked, grant)
    {
      var word;
      grant, word := Decide(owners[i], holders[i], o, asked);
      GrantRecorded(slots, holders, table, i, l, o, asked, grant);
      UpdateSame(lpns[..], i);
      Store(i, l, word, Recorded(holders[i], o, grant), Granted(table, l, o, grant));
    }

    /** Slot i is for page l, with the holders h that the word packs. */
    method Store(i: nat, l: nat, word: bv32, ghost h: Holders, ghost t: Table)
      requires i < MAX_LOCKS && Arrays() && TableSafe(t) && Unpacked(owners[..], holders) && h == Unpack(word)
      requires Slots(lpns[..][i := l], holders[i := h], t) && (l == NULL_LPN ==> numLocks == |t.Keys| + 1)
      requires l != NULL_LPN ==> lpns[i] == l && numLocks == |t.Keys|
      modifies this`numLocks, this`table, this`holders, lpns, owners
      ensures Valid() && table == t
    {
      ghost var slots, words := lpns[..][i := l], owners[..][i := word];
      owners[i] := word;
      if l == NULL_LPN {
        lpns[i] := l;
        numLocks := numLocks - 1;
      }
      assert owners[..] == words;
      holders := holders[i := h];
      table := t;
      assert lpns[..] == slots;
    }

    /** The lock to grant, and the owners word that records it. */
    method Decide(word: bv32, ghost hs: Holders, o: Owner, asked: LockType) returns (grant: LockType, after: bv32)
      requires hs == Unpack(word)
      ensures IsStrongestGrant(hs, o, asked, grant) && Recorded(hs, o, grant) == Unpack(after)
    {
      var h := HighestExcept(word, o);
      grant := Min(HighestCompatible(h), Max(asked, LockOf(word, o)));
      GrantIsStrongest(hs, o, asked, h);
      after := word;
      if grant != NULL_LOCK && grant != LockOf(word, o) {
        UnpackAfterSet(word, o, grant);
        after := WithLock(word, o, grant);
      }
    }

    /** page_unlock: the lock goes, the slot too if nobody else has the page, and sleepers are told. */
    method Unlock(o: Owner, l: nat)
      requires Valid() && l != NULL_LPN
      modifies this, lpns, owners
      ensures Valid() && table == Released(old(table), l, o)
      ensures released == (old(released) || Held(old(table), l, o) != NULL_LOCK)
    {
      var i := Find(l);
      if i >= MAX_LOCKS {
        return;
      }
      SlotKnown(lpns[..], holders, table, i, l);
      var word := owners[i];
      if LockOf(word, o) == NULL_LOCK {
        return;
      }
      ReleaseRecorded(lpns[..], holders, table, i, l, o);
      word := WithoutLock(word, o);
      ghost var h := holders[i][o := NULL_LOCK];
      UpdateSame(lpns[..], i);
      Store(i, if word == 0 then NULL_LPN else l, word, h, Released(table, l, o));
      released := true;
    }
  }

  /** The word when o has given up its lock. */
  method WithoutLock(word: bv32, o: Owner) returns (after: bv32)
    ensures Unpack(after) == Unpack(word)[o := NULL_LOCK] && (after == 0 <==> Unpack(after) == Nobody())
  {
    UnpackAfterSet(word, o, NULL_LOCK);
    after := WithLock(word, o, NULL_LOCK);
    ZeroMeansNobody(after);
  }

  /** The words say who holds the slots. */
  ghost predicate Unpacked(words: seq<bv32>, hs: seq<Holders>) {
    |hs| == |words| && forall i {:trigger hs[i]} | 0 <= i < |hs| :: hs[i] == Unpack(words[i])
  }
}
