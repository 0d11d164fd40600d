/** The page-lock types, the compatibility matrix that page_lock.h documents, and the grant rule that page_lock.c
    computes. */
module LockRules {

  /** page_lock_type_t; the order of the values is the order of strength. */
  type LockType = t: nat | t < 4

  const NULL_LOCK: LockType := 0
  const READ_LOCK: LockType := 1
  const INTENT_LOCK: LockType := 2
  const WRITE_LOCK: LockType := 3

  const NUM_OWNERS := 16                      // MAX_NUM_PAGE_LOCK_OWNERS

  /** A lock owner: the id of a thread. */
  type Owner = o: nat | o < NUM_OWNERS

  /** What each owner has on one page. */
  type Holders = hs: seq<LockType> | |hs| == NUM_OWNERS witness seq(NUM_OWNERS, _ => NULL_LOCK)

  function Nobody(): Holders { seq(NUM_OWNERS, _ => NULL_LOCK) }

  /** The documented matrix: may t be granted while another owner holds h? */
  predicate Compatible(h: LockType, t: LockType) {
    || t == NULL_LOCK
    || h == NULL_LOCK
    || (h == READ_LOCK && (t == READ_LOCK || t == INTENT_LOCK))
  }

  function Max(a: LockType, b: LockType): LockType { if a > b then a else b }

  function Min(a: LockType, b: LockType): LockType { if a > b then b else a }

  /** _highest_compatible_lock: what can be granted when the others' strongest lock is h. */
  function HighestCompatible(h: LockType): LockType {
    if h == NULL_LOCK then WRITE_LOCK else if h == READ_LOCK then INTENT_LOCK else NULL_LOCK
  }

  /** h is the strongest lock that an owner other than o has. */
  ghost predicate IsOthersHighest(hs: Holders, o: Owner, h: LockType) {
    && (forall p: Owner | p != o :: hs[p] <= h)
    && (h != NULL_LOCK ==> exists p: Owner :: p != o && hs[p] == h)
  }

  ghost predicate CompatibleWithOthers(hs: Holders, o: Owner, t: LockType) {
    forall p: Owner | p != o :: Compatible(hs[p], t)
  }

  /** r is the strongest lock, up to what o asks for or has, that the matrix allows beside the others' locks. */
  ghost predicate IsStrongestGrant(hs: Holders, o: Owner, asked: LockType, r: LockType) {
    && r <= Max(asked, hs[o]) && CompatibleWithOthers(hs, o, r)
    && (forall t: LockType | t <= Max(asked, hs[o]) && CompatibleWithOthers(hs, o, t) :: t <= r)
  }

  /** The table lookup of the code picks exactly the strongest compatible lock. */
  lemma GrantIsStrongest(hs: Holders, o: Owner, asked: LockType, h: LockType)
    requires IsOthersHighest(hs, o, h)
    ensures IsStrongestGrant(hs, o, asked, Min(HighestCompatible(h), Max(asked, hs[o])))
  {
    forall t: LockType ensures CompatibleWithOthers(hs, o, t) <==> t <= HighestCompatible(h) {
      if h != NULL_LOCK {
        var p: Owner :| p != o && hs[p] == h;
        assert Compatible(hs[p], t) == (t <= HighestCompatible(h));
      }
    }
  }

  /** At most one owner of a page intends to write or writes, and a writer is alone. */
  ghost predicate Exclusive(hs: Holders) {
    forall o: Owner, p: Owner | o != p :: ExclusivePair(hs[o], hs[p])
  }

  predicate ExclusivePair(a: LockType, b: LockType) {
    && (a >= INTENT_LOCK ==> b <= READ_LOCK)
    && (a == WRITE_LOCK ==> b == NULL_LOCK)
  }

  /** The holders after a grant: a null grant is not recorded. */
  function Recorded(hs: Holders, o: Owner, grant: LockType): Holders {
    if grant != NULL_LOCK && grant != hs[o] then hs[o := grant] else hs
  }

  /** A lock that is held is compatible with the others, unless it is a read lock and another owner intends to write. */
  lemma StrongestAboveHeld(hs: Holders, o: Owner, asked: LockType, grant: LockType)
    requires Exclusive(hs) && IsStrongestGrant(hs, o, asked, grant)
    ensures grant == NULL_LOCK || hs[o] <= grant
  {
    if hs[o] > grant {
      assert !CompatibleWithOthers(hs, o, hs[o]);
      var p: Owner :| p != o && !Compatible(hs[p], hs[o]);
      assert ExclusivePair(hs[o], hs[p]) && ExclusivePair(hs[p], hs[o]);
      assert Compatible(hs[p], grant);
    }
  }

  /** A grant keeps the page exclusive and never lowers a lock that is held. */
  lemma GrantKeepsExclusive(hs: Holders, o: Owner, asked: LockType, grant: LockType)
    requires Exclusive(hs) && IsStrongestGrant(hs, o, asked, grant)
    ensures Exclusive(Recorded(hs, o, grant))
    ensures Recorded(hs, o, grant) == hs[o := Max(grant, hs[o])]
  {
    StrongestAboveHeld(hs, o, asked, grant);
    forall p: Owner | p != o
      ensures ExclusivePair(Max(grant, hs[o]), hs[p]) && ExclusivePair(hs[p], Max(grant, hs[o]))
    {
      assert Compatible(hs[p], grant);
      assert ExclusivePair(hs[o], hs[p]) && ExclusivePair(hs[p], hs[o]);
    }
  }

  /** page_lock.h lets an owner ask again for a lock it has. The answer names the lock held afterwards except in
      one case: the owner reads, and another owner intends to write. Then it is told that it has none. */
  lemma AnswerNamesLockHeld(hs: Holders, o: Owner, asked: LockType, grant: LockType)
    requires Exclusive(hs) && IsStrongestGrant(hs, o, asked, grant)
    ensures grant != Recorded(hs, o, grant)[o] <==>
      hs[o] == READ_LOCK && exists p: Owner :: p != o && hs[p] == INTENT_LOCK
  {
    StrongestAboveHeld(hs, o, asked, grant);
    if grant < hs[o] {
      assert !CompatibleWithOthers(hs, o, hs[o]);
      var p: Owner :| p != o && !Compatible(hs[p], hs[o]);
      assert ExclusivePair(hs[o], hs[p]) && ExclusivePair(hs[p], hs[o]);
    } else if hs[o] == READ_LOCK {
      forall p: Owner | p != o ensures hs[p] != INTENT_LOCK {
        assert Compatible(hs[p], grant);
      }
    }
  }

  /** The case happens: owner 0 reads, owner 1 intends to write, and owner 0 asks for its read lock again. */
  lemma ReaderIsToldNothing(hs: Holders)
    requires hs == Nobody()[0 := READ_LOCK][1 := INTENT_LOCK]
    ensures Exclusive(hs) && hs[0] == READ_LOCK
    ensures IsStrongestGrant(hs, 0, READ_LOCK, NULL_LOCK)
  {
    assert !CompatibleWithOthers(hs, 0, READ_LOCK) by {
      assert !Compatible(hs[1], READ_LOCK);
    }
  }
}
