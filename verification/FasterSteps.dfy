/** What the operations of the FASTer FTL rely on at each step, and when a full merge can find its victim. */
module FasterSteps {
  import opened FasterState
  import opened FasterMerge
  import opened FasterIsol
  import opened FasterGc
  import opened FasterWrite

  /** Nothing changes, then one page, and then nothing. */
  lemma WrittenOnly(g: Geometry, st0: State, st1: State, st2: State, d: Pg, data: Data)
    requires SameContent(g, st0, st1) && OnePage(g, st1, st2, d, data)
    ensures OnePage(g, st0, st2, d, data)
  {
    forall c | IsPage(g, c) ensures Resolve(g, st2, c) == if c == d then data else Resolve(g, st0, c) {
      assert Resolve(g, st1, c) == Resolve(g, st0, c);
    }
  }

  /** Removing an entry first makes no difference. */
  lemma PutAnew(h: map<Pg, Pg>, d: Pg, e: Pg)
    ensures h - {d} + map[d := e] == h[d := e]
  {
  }

  /** A page that is written with the content it had. */
  lemma SameRewritten(g: Geometry, st0: State, st1: State, st2: State, d: Pg)
    requires SameContent(g, st0, st1) && OnePage(g, st1, st2, d, Resolve(g, st1, d))
    ensures SameContent(g, st0, st2)
  {
    forall c | IsPage(g, c) ensures Resolve(g, st2, c) == Resolve(g, st0, c) {
      assert Resolve(g, st1, c) == Resolve(g, st0, c);
    }
  }

  lemma SameAfter(g: Geometry, st0: State, st1: State, st2: State, d: Pg, data: Data)
    requires OnePage(g, st0, st1, d, data) && SameContent(g, st1, st2)
    ensures OnePage(g, st0, st2, d, data)
  {
    forall c | IsPage(g, c) ensures Resolve(g, st2, c) == if c == d then data else Resolve(g, st0, c) {
      assert Resolve(g, st2, c) == Resolve(g, st1, c);
    }
  }

  /** A page that is not valid is passed. */
  lemma SkipPage(g: Geometry, st0: State, st: State, b: nat, t: nat, o: nat, k: nat)
    requires Inv(g, st0) && GcMid(g, st0, st, b, t, o, k) && o + 1 < g.pages && st.rwList[o] == NOWHERE
    ensures GcMid(g, st0, st, b, t, o + 1, k)
  {
    NowhereIsNoPage(g, st0);
    assert NOWHERE !in st0.hash.Keys;
    GcSkip(g, st0, st, st, b, t, o, k);
  }

  /** A merge leaves no new entries in the victim block; the victim page is unused once its own entry has gone. */
  lemma StillAhead(g: Geometry, st: State, st': State, vt: Pg, list: seq<Pg>)
    requires Inv(g, st) && IsVictim(g, st, vt, list) && st'.isolCur == st.isolCur
    requires forall d | d in st'.hash :: d in st.hash && st'.hash[d] == st.hash[d]
    ensures AllAhead(g, st', vt, list) && Clear(st', vt)
    ensures list[vt.o] !in st'.hash ==> Unused(g, st', vt)
  {
    forall d | d in st'.hash ensures Ahead(g, vt, list, d, st'.hash[d]) {
      assert Ahead(g, vt, list, d, st.hash[d]);
    }
  }

  /** Page vt of the isolation area is valid, and the list says whose it is. */
  ghost predicate IsVictim(g: Geometry, st: State, vt: Pg, list: seq<Pg>) {
    && vt == NextIsol(g, st.vt) && st.isolFree < g.isols
    && Clear(st, vt) && vt.b < g.isols && vt.o < g.pages - 1 && |list| == g.pages && AllAhead(g, st, vt, list)
    && list[vt.o] in st.hash && st.hash[list[vt.o]] == Pg(g.logs + vt.b, vt.o)
  }

  /** A page that is not valid for the name in the list is not valid for any other. */
  lemma NotNamed(g: Geometry, st: State, vt: Pg, list: seq<Pg>)
    requires AllAhead(g, st, vt, list) && vt.o < |list|
    requires !(list[vt.o] in st.hash && st.hash[list[vt.o]] == Pg(g.logs + vt.b, vt.o))
    ensures Unused(g, st, vt)
  {
    forall d | d in st.hash ensures st.hash[d] != Pg(g.logs + vt.b, vt.o) {
      assert Ahead(g, vt, list, d, st.hash[d]);
    }
  }

  /** When the victim pointer is at the last page but one, nothing is left in the block. */
  lemma NoneLeft(g: Geometry, st: State)
    requires Inv(g, st) && st.vt != NOWHERE && st.vt.o + 2 == g.pages
    ensures Abandoned(g, st, st.vt.b)
  {
    forall d | d in st.hash ensures st.hash[d].b != g.logs + st.vt.b {
      assert IsolNamed(g, st, d, st.hash[d]) && EntryOk(g, st, d, st.hash[d]);
    }
  }

  lemma BuildingStarts(g: Geometry, st: State, lbn: nat)
    requires Inv(g, st) && lbn < g.datas
    ensures st.free[0] in st.free && Building(g, st, st.hash, st.flash, lbn, st.free[0], 0, 0)
  {
    assert ErasedFrom(st.flash, st.free[0], 0);
  }

  lemma EntriesNotInFree(g: Geometry, st: State)
    requires Inv(g, st)
    ensures forall d | d in st.hash :: LogVbn(g, st, st.hash[d].b) != st.free[0]
  {
    forall d | d in st.hash ensures LogVbn(g, st, st.hash[d].b) != st.free[0] {
      assert EntryOk(g, st, d, st.hash[d]) && st.free[0] in st.free;
      NotInFree(g, st, d);
    }
  }

  lemma NotMovedYet(g: Geometry, st0: State, st: State, d: Pg, t: nat, m: nat)
    requires st == st0.(hash := st.hash, vc := st.hash.Keys, flash := st.flash, free := st.free)
    requires Building(g, st0, st.hash, st.flash, d.b, t, d.o, m) && Where(g, st0, d).b != t
    ensures Resolve(g, st, d) == Resolve(g, st0, d)
  {
    assert d in st0.hash <==> d in st.hash;
    SourceIsOld(g, st0, st.hash, st.flash, d.b, t, d.o, m, d);
  }

  /** A page that the sequential log block does not have yet is in another block. */
  lemma RestIsElsewhere(g: Geometry, st: State, d: Pg)
    requires Inv(g, st) && IsPage(g, d) && d.b == st.swLbn && st.swNext <= d.o
    ensures Where(g, st, d).b != LogVbn(g, st, 0)
  {
    if d in st.hash {
      assert EntryOk(g, st, d, st.hash[d]);
      OtherBlock(g, st, st.hash[d].b);
    } else {
      assert TwoOwners(g, st, DataOf(d.b), LogOf(0)) && VbnOf(g, st, DataOf(d.b)) == DataVbn(st, d.b);
      assert VbnOf(g, st, LogOf(0)) == LogVbn(g, st, 0);
    }
  }

  /** No page is in a free block. */
  lemma NotInFree(g: Geometry, st: State, d: Pg)
    requires Inv(g, st) && IsPage(g, d)
    ensures Where(g, st, d).b !in st.free
  {
    if d in st.hash {
      assert EntryOk(g, st, d, st.hash[d]) && OwnerOk(g, st, LogOf(st.hash[d].b));
    } else {
      assert OwnerOk(g, st, DataOf(d.b));
    }
  }

  lemma OtherBlock(g: Geometry, st: State, b: nat)
    requires BlocksOk(g, st) && 0 < b && IsOwner(g, LogOf(b)) && g.Valid()
    ensures LogVbn(g, st, b) != LogVbn(g, st, 0)
  {
    assert TwoOwners(g, st, LogOf(b), LogOf(0)) && VbnOf(g, st, LogOf(b)) == LogVbn(g, st, b);
    assert VbnOf(g, st, LogOf(0)) == LogVbn(g, st, 0);
  }

  /** No page of another data block is in the sequential log block. */
  lemma OthersElsewhere(g: Geometry, st: State)
    requires Inv(g, st)
    ensures forall d | d in st.hash && d.b != st.swLbn :: LogVbn(g, st, st.hash[d].b) != LogVbn(g, st, 0)
  {
    forall d | d in st.hash && d.b != st.swLbn ensures LogVbn(g, st, st.hash[d].b) != LogVbn(g, st, 0) {
      assert EntryOk(g, st, d, st.hash[d]);
      OtherBlock(g, st, st.hash[d].b);
    }
  }

  // ---- when a full merge succeeds -----------------------------------------------------------------------------------

  /** The assertions of the code on the next victim page: it is not the page of a block that is for names, and not in
      the block that is being written. */
  predicate CanMerge(g: Geometry, st: State) { NextIsol(g, st.vt).o != Last(g) && Clear(st, NextIsol(g, st.vt)) }

  /** The first page of isolation block b, from o on, that is still valid. */
  ghost function FirstValid(g: Geometry, st: State, b: nat, o: nat): (r: nat)
    ensures o <= Last(g) ==> o <= r <= Last(g)
    decreases Last(g) - o
  {
    if o >= Last(g) then Last(g) else if !Unused(g, st, Pg(b, o)) then o else FirstValid(g, st, b, o + 1)
  }

  /** The page that a full merge finds. */
  ghost function Found(g: Geometry, st: State): Pg {
    var vt := NextIsol(g, st.vt);
    Pg(vt.b, FirstValid(g, st, vt.b, vt.o))
  }

  /** The victim page is the last one of its block that is not for names, and the block has not been given back. */
  predicate Stuck(g: Geometry, st: State) { st.vt != NOWHERE && st.vt.o + 2 == g.pages }

  /** In a state that the FTL can be in, with an isolation block in use, an assertion fails in full_merge exactly when
      the victim page is stuck: the block that is being written is never in the way. */
  lemma MergeFailsWhenStuck(g: Geometry, st: State)
    requires Inv(g, st) && st.isolFree < g.isols
    ensures CanMerge(g, st) <==> !Stuck(g, st)
  {
    assert InTurn(g, st, g.isols - st.isolFree);
  }

  /** In the search, the pages of the block up to vt are not valid. */
  ghost predicate Searching(g: Geometry, st0: State, st: State, vt: Pg) {
    && vt == NextIsol(g, st.vt) && vt.o < Last(g) && Clear(st, vt) && vt.b == NextIsol(g, st0.vt).b
    && Pg(vt.b, FirstValid(g, st0, vt.b, vt.o)) == Found(g, st0)
  }
}
