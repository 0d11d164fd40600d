/** The changes that the write buffer makes to its tables, what each does to what is buffered, and that each keeps the
    invariant. */
module WbMoves {
  import opened Sectors
  import opened WbState

  // ---- taking a slot out -------------------------------------------------------------------------------------

  /** Sub-pages leave buffer b, which is free when nothing is left in it. */
  ghost function Vacated(uids: seq<nat>, b: nat, left: Mask): seq<nat>
    requires b < |uids|
  {
    if left == {} then uids[b := NULL_UID] else uids
  }

  ghost function Remove(g: Geometry, st: State, i: nat): State
    requires Shape(g, st) && i < g.slots && st.bids[i] < g.bufs
  {
    var b := st.bids[i];
    var left := st.bufMasks[b] - Aligned(g, st.masks[i]);
    st.(lpns := st.lpns[i := NULL_LPN], masks := st.masks[i := {}], bids := st.bids[i := NULL_BID],
        bufMasks := st.bufMasks[b := left], uids := Vacated(st.uids, b, left))
  }

  lemma AlignedIsNotEmpty(g: Geometry, m: Mask)
    requires InPage(g, m) && m != {}
    ensures Aligned(g, m) != {}
  {
    AlignedHolds(g, m);
  }

  /** The other slots of the buffer keep it in use. */
  lemma OthersStay(g: Geometry, st: State, i: nat, j: nat)
    requires Inv(g, st) && i < g.slots && j < g.slots && i != j && Used(st, i) && Used(st, j)
    ensures st.bids[i] < g.bufs && st.bids[j] < g.bufs
    ensures Remove(g, st, i).uids[st.bids[j]] == st.uids[st.bids[j]]
    ensures Aligned(g, st.masks[j]) <= Remove(g, st, i).bufMasks[st.bids[j]]
  {
    assert SlotOk(g, st, i) && SlotOk(g, st, j) && PairOk(g, st, i, j);
    AlignedIsNotEmpty(g, st.masks[j]);
  }

  lemma RemoveKeepsBuf(g: Geometry, st: State, i: nat, b: nat)
    requires Inv(g, st) && i < g.slots && Used(st, i) && b < g.bufs && st.bids[i] < g.bufs
    ensures BufOk(g, Remove(g, st, i), b)
  {
    var st' := Remove(g, st, i);
    assert BufOk(g, st, b);
    forall s | s in st'.bufMasks[b] ensures Covered(g, st', b, s) {
      assert Covered(g, st, b, s);
      var j: nat :| j < g.slots && In(st, j, b) && s in Aligned(g, st.masks[j]);
      assert In(st', j, b);
    }
  }

  lemma RemoveKeepsInv(g: Geometry, st: State, i: nat)
    requires Inv(g, st) && i < g.slots && Used(st, i)
    ensures st.bids[i] < g.bufs && Inv(g, Remove(g, st, i))
  {
    assert SlotOk(g, st, i);
    var st' := Remove(g, st, i);
    forall j | 0 <= j < g.slots ensures SlotOk(g, st', j) {
      assert SlotOk(g, st, j);
      if j != i && Used(st, j) {
        OthersStay(g, st, i, j);
      }
    }
    forall j, k | 0 <= j < g.slots && 0 <= k < g.slots ensures PairOk(g, st', j, k) {
      assert PairOk(g, st, j, k);
      if j != i && k != i && Used(st, j) && Used(st, k) {
        OthersStay(g, st, i, j);
        OthersStay(g, st, i, k);
      }
    }
    forall b | 0 <= b < g.bufs ensures BufOk(g, st', b) {
      RemoveKeepsBuf(g, st, i, b);
    }
  }

  /** Exactly what the slot held is gone. */
  lemma RemoveView(g: Geometry, st: State, i: nat, l: nat, s: nat)
    requires Inv(g, st) && i < g.slots && Used(st, i) && st.bids[i] < g.bufs && Inv(g, Remove(g, st, i))
    ensures View(g, Remove(g, st, i), l, s) == if Holds(st, i, l, s) then None else View(g, st, l, s)
  {
    var st' := Remove(g, st, i);
    if Holds(st, i, l, s) {
      forall j: nat | Holds(st, j, l, s) ensures j == i {
        OnlyHolder(g, st, i, j, l, s);
      }
      forall j: nat ensures !Holds(st', j, l, s) {
        assert Holds(st', j, l, s) ==> Holds(st, j, l, s);
      }
    } else if j: nat :| Holds(st, j, l, s) {
      assert Holds(st', j, l, s);
      ViewIs(g, st, j, l, s);
      ViewIs(g, st', j, l, s);
      OthersStay(g, st, i, j);
    } else {
      assert forall j: nat :: Holds(st', j, l, s) ==> Holds(st, j, l, s);
    }
  }

  // ---- cutting sub-pages out of a slot ------------------------------------------------------------------------

  ghost function Shrink(g: Geometry, st: State, i: nat, cut: Mask): State
    requires Shape(g, st) && i < g.slots && st.bids[i] < g.bufs
  {
    var b := st.bids[i];
    st.(masks := st.masks[i := st.masks[i] - cut], bufMasks := st.bufMasks[b := st.bufMasks[b] - Aligned(g, cut)])
  }

  ghost predicate CanShrink(g: Geometry, st: State, i: nat, cut: Mask)
    requires Shape(g, st)
  {
    && i < g.slots && Used(st, i) && st.bids[i] < g.bufs && cut <= st.masks[i] && st.masks[i] - cut != {}
    && Aligned(g, cut) !! Aligned(g, st.masks[i] - cut)
  }

  lemma ShrinkSlots(g: Geometry, st: State, i: nat, cut: Mask, j: nat)
    requires Inv(g, st) && CanShrink(g, st, i, cut) && j < g.slots
    ensures SlotOk(g, Shrink(g, st, i, cut), j)
    ensures Aligned(g, Shrink(g, st, i, cut).masks[j]) <= Aligned(g, st.masks[j])
  {
    var rest := st.masks[i] - cut;
    assert SlotOk(g, st, i) && SlotOk(g, st, j) && PairOk(g, st, i, j);
    AlignedGrows(g, cut, st.masks[i]);
    AlignedGrows(g, rest, st.masks[i]);
  }

  lemma ShrinkKeepsBuf(g: Geometry, st: State, i: nat, cut: Mask, b: nat)
    requires Inv(g, st) && CanShrink(g, st, i, cut) && b < g.bufs
    ensures BufOk(g, Shrink(g, st, i, cut), b)
  {
    var st', rest := Shrink(g, st, i, cut), st.masks[i] - cut;
    assert BufOk(g, st, b) && SlotOk(g, st, i);
    assert st.masks[i] == cut + rest;
    AlignedOfUnion(g, cut, rest);
    AlignedIsNotEmpty(g, rest);
    forall s | s in st'.bufMasks[b] ensures Covered(g, st', b, s) {
      assert Covered(g, st, b, s);
      var j: nat :| j < g.slots && In(st, j, b) && s in Aligned(g, st.masks[j]);
      assert In(st', j, b);
    }
  }

  lemma ShrinkKeepsInv(g: Geometry, st: State, i: nat, cut: Mask)
    requires Inv(g, st) && CanShrink(g, st, i, cut)
    ensures Inv(g, Shrink(g, st, i, cut))
  {
    var st' := Shrink(g, st, i, cut);
    forall j | 0 <= j < g.slots ensures SlotOk(g, st', j) {
      ShrinkSlots(g, st, i, cut, j);
    }
    forall j, k | 0 <= j < g.slots && 0 <= k < g.slots ensures PairOk(g, st', j, k) {
      assert PairOk(g, st, j, k);
      ShrinkSlots(g, st, i, cut, j);
      ShrinkSlots(g, st, i, cut, k);
    }
    forall b | 0 <= b < g.bufs ensures BufOk(g, st', b) {
      ShrinkKeepsBuf(g, st, i, cut, b);
    }
  }

  lemma ShrinkView(g: Geometry, st: State, i: nat, cut: Mask, l: nat, s: nat)
    requires Inv(g, st) && CanShrink(g, st, i, cut) && Inv(g, Shrink(g, st, i, cut))
    ensures View(g, Shrink(g, st, i, cut), l, s) == if Holds(st, i, l, s) && s in cut then None else View(g, st, l, s)
  {
    var st' := Shrink(g, st, i, cut);
    if Holds(st, i, l, s) && s in cut {
      forall j: nat | Holds(st, j, l, s) ensures j == i {
        OnlyHolder(g, st, i, j, l, s);
      }
      forall j: nat ensures !Holds(st', j, l, s) {
        assert Holds(st', j, l, s) ==> Holds(st, j, l, s);
      }
    } else if j: nat :| Holds(st, j, l, s) {
      assert Holds(st', j, l, s);
      ViewIs(g, st, j, l, s);
      ViewIs(g, st', j, l, s);
    } else {
      assert forall j: nat :: Holds(st', j, l, s) ==> Holds(st, j, l, s);
    }
  }

  // ---- putting a slot in ---------------------------------------------------------------------------------------

  ghost function Insert(g: Geometry, st: State, i: nat, l: nat, m: Mask, b: nat, u: nat, page: seq<Sector>): State
    requires Shape(g, st) && i < g.slots && b < g.bufs
  {
    st.(lpns := st.lpns[i := l], masks := st.masks[i := m], bids := st.bids[i := b],
        bufMasks := st.bufMasks[b := st.bufMasks[b] + Aligned(g, m)], uids := st.uids[b := u],
        pages := st.pages[b := page])
  }

  /** The buffer has room for the sectors, and belongs to the user or to nobody. */
  ghost predicate Fits(g: Geometry, st: State, m: Mask, b: nat, u: nat)
    requires Shape(g, st)
  {
    b < g.bufs && Aligned(g, m) !! st.bufMasks[b] && (st.bufMasks[b] == {} || st.uids[b] == u)
  }

  /** Other users' slots of the page keep to other sub-pages, and the user has no slot of it. */
  ghost predicate Clear(g: Geometry, st: State, l: nat, m: Mask, u: nat)
    requires Shape(g, st)
  {
    forall j | 0 <= j < g.slots && st.lpns[j] == l :: ClearOf(g, st, m, u, j)
  }

  ghost predicate ClearOf(g: Geometry, st: State, m: Mask, u: nat, j: nat)
    requires Shape(g, st) && j < g.slots
  {
    st.bids[j] < g.bufs && st.uids[st.bids[j]] != u && Aligned(g, m) !! Aligned(g, st.masks[j])
  }

  ghost predicate CanInsert(g: Geometry, st: State, i: nat, l: nat, m: Mask, b: nat, u: nat, page: seq<Sector>)
    requires Shape(g, st)
  {
    && i < g.slots && !Used(st, i) && l != NULL_LPN && u != NULL_UID && m != {} && InPage(g, m)
    && Fits(g, st, m, b, u) && Clear(g, st, l, m, u)
    && |page| == g.Sectors() && forall s | s in st.bufMasks[b] && s < g.Sectors() :: page[s] == st.pages[b][s]
  }

  lemma InsertKeepsUids(g: Geometry, st: State, i: nat, l: nat, m: Mask, b: nat, u: nat, page: seq<Sector>, j: nat)
    requires Inv(g, st) && CanInsert(g, st, i, l, m, b, u, page) && j < g.slots && Used(st, j)
    ensures j != i && st.bids[j] < g.bufs && Insert(g, st, i, l, m, b, u, page).uids[st.bids[j]] == st.uids[st.bids[j]]
  {
    assert SlotOk(g, st, j);
    AlignedIsNotEmpty(g, st.masks[j]);
  }

  lemma InsertPair(g: Geometry, st: State, i: nat, l: nat, m: Mask, b: nat, u: nat, page: seq<Sector>, j: nat)
    requires Inv(g, st) && CanInsert(g, st, i, l, m, b, u, page) && j < g.slots
    ensures PairOk(g, Insert(g, st, i, l, m, b, u, page), i, j) && PairOk(g, Insert(g, st, i, l, m, b, u, page), j, i)
  {
    if j != i && Used(st, j) {
      assert SlotOk(g, st, j);
      InsertKeepsUids(g, st, i, l, m, b, u, page, j);
      if st.lpns[j] == l {
        assert ClearOf(g, st, m, u, j);
      }
    }
  }

  lemma InsertKeepsBuf(g: Geometry, st: State, i: nat, l: nat, m: Mask, b: nat, u: nat, page: seq<Sector>, c: nat)
    requires Inv(g, st) && CanInsert(g, st, i, l, m, b, u, page) && c < g.bufs
    ensures BufOk(g, Insert(g, st, i, l, m, b, u, page), c)
  {
    var st' := Insert(g, st, i, l, m, b, u, page);
    assert BufOk(g, st, c) && SlotOk(g, st, i);
    AlignedIsNotEmpty(g, m);
    forall s | s in st'.bufMasks[c] ensures Covered(g, st', c, s) {
      if s in st.bufMasks[c] {
        assert Covered(g, st, c, s);
        var j: nat :| j < g.slots && In(st, j, c) && s in Aligned(g, st.masks[j]);
        assert In(st', j, c);
      } else {
        assert In(st', i, c);
      }
    }
  }

  lemma InsertKeepsInv(g: Geometry, st: State, i: nat, l: nat, m: Mask, b: nat, u: nat, page: seq<Sector>)
    requires Inv(g, st) && CanInsert(g, st, i, l, m, b, u, page)
    ensures Inv(g, Insert(g, st, i, l, m, b, u, page))
  {
    var st' := Insert(g, st, i, l, m, b, u, page);
    forall j | 0 <= j < g.slots ensures SlotOk(g, st', j) {
      assert SlotOk(g, st, j);
    }
    forall j, k | 0 <= j < g.slots && 0 <= k < g.slots ensures PairOk(g, st', j, k) {
      assert PairOk(g, st, j, k);
      if j == i {
        InsertPair(g, st, i, l, m, b, u, page, k);
      } else if k == i {
        InsertPair(g, st, i, l, m, b, u, page, j);
      } else if Used(st, j) && Used(st, k) {
        InsertKeepsUids(g, st, i, l, m, b, u, page, j);
        InsertKeepsUids(g, st, i, l, m, b, u, page, k);
      }
    }
    forall c | 0 <= c < g.bufs ensures BufOk(g, st', c) {
      InsertKeepsBuf(g, st, i, l, m, b, u, page, c);
    }
  }

  /** What the slot holds is there now, and nothing else has changed. */
  lemma InsertView(g: Geometry, st: State, i: nat, l: nat, m: Mask, b: nat, u: nat, page: seq<Sector>, l': nat, s: nat)
    requires Inv(g, st) && CanInsert(g, st, i, l, m, b, u, page) && Inv(g, Insert(g, st, i, l, m, b, u, page))
    ensures View(g, Insert(g, st, i, l, m, b, u, page), l', s) ==
            if l' == l && s in m then Some(Owned(u, page[s])) else View(g, st, l', s)
  {
    var st' := Insert(g, st, i, l, m, b, u, page);
    if l' == l && s in m {
      assert Holds(st', i, l', s);
      ViewIs(g, st', i, l', s);
    } else if j: nat :| Holds(st, j, l', s) {
      InsertKeepsUids(g, st, i, l, m, b, u, page, j);
      assert Holds(st', j, l', s) && SlotOk(g, st, j);
      AlignedHolds(g, st.masks[j]);
      ViewIs(g, st, j, l', s);
      ViewIs(g, st', j, l', s);
    } else {
      assert forall j: nat :: Holds(st', j, l', s) ==> Holds(st, j, l', s);
    }
  }
}
