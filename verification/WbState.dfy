/** The tables of the write buffer as one value, their invariant, and what they say is buffered. */
module WbState {
  import opened Sectors

  const NULL_LPN: nat := 0xFFFF_FFFF
  const NULL_BID: nat := 0xFF
  const NULL_UID: nat := 0xFFFF

  /** The sectors of a page, as a mask has them. */
  type Mask = set<nat>

  /** A buffered sector: whose it is, and its data. */
  datatype Owned = Owned(uid: nat, data: Sector)

  datatype Geometry = Geometry(subs: nat, per: nat, bufs: nat, slots: nat) {
    function Sectors(): nat { subs * per }

    predicate Valid() { 0 < subs && 0 < per && 0 < bufs <= NULL_BID && 0 < slots }
  }

  // ---- sub-pages -------------------------------------------------------------------------------------------

  function SubOf(per: nat, s: nat): nat { if per == 0 then 0 else s / per }

  /** The sectors of sub-page k. */
  function SubPage(g: Geometry, k: nat): Mask { set s: nat | s < g.Sectors() && SubOf(g.per, s) == k }

  ghost predicate HasSector(g: Geometry, m: Mask, k: nat) { exists s :: s in m && SubOf(g.per, s) == k }

  lemma SubPageHas(g: Geometry, m: Mask, k: nat)
    requires InPage(g, m)
    ensures m * SubPage(g, k) != {} <==> HasSector(g, m, k)
  {
    if s :| s in m && SubOf(g.per, s) == k {
      assert s in m * SubPage(g, k);
    }
  }

  /** t is in the same sub-page as some sector of the mask. */
  ghost predicate Touches(per: nat, m: Mask, t: nat) { exists s :: s in m && SubOf(per, s) == SubOf(per, t) }

  /** The mask extended to whole sub-pages. */
  ghost function Aligned(g: Geometry, m: Mask): Mask { set t: nat | t < g.Sectors() && Touches(g.per, m, t) }

  predicate InPage(g: Geometry, m: Mask) { forall s <- m :: s < g.Sectors() }

  lemma AlignedHolds(g: Geometry, m: Mask)
    requires InPage(g, m)
    ensures m <= Aligned(g, m)
  {
    forall s <- m ensures s in Aligned(g, m) {
      assert Touches(g.per, m, s);
    }
  }

  lemma AlignedOfUnion(g: Geometry, m: Mask, n: Mask)
    ensures Aligned(g, m + n) == Aligned(g, m) + Aligned(g, n)
  {
    forall t ensures Touches(g.per, m + n, t) <==> Touches(g.per, m, t) || Touches(g.per, n, t) {
      if Touches(g.per, m + n, t) {
        var s :| s in m + n && SubOf(g.per, s) == SubOf(g.per, t);
        assert s in m || s in n;
      }
      if Touches(g.per, m, t) {
        var s :| s in m && SubOf(g.per, s) == SubOf(g.per, t);
        assert s in m + n;
      }
      if Touches(g.per, n, t) {
        var s :| s in n && SubOf(g.per, s) == SubOf(g.per, t);
        assert s in m + n;
      }
    }
  }

  lemma AlignedGrows(g: Geometry, m: Mask, n: Mask)
    requires m <= n
    ensures Aligned(g, m) <= Aligned(g, n)
  {
    assert n == m + n;
    AlignedOfUnion(g, m, n);
  }

  /** Sets of sectors that overlap after alignment overlap with what is aligned already. */
  lemma AlignedMeets(g: Geometry, m: Mask, a: Mask)
    requires m !! Aligned(g, a) && InPage(g, m) && InPage(g, a)
    ensures Aligned(g, m) !! Aligned(g, a)
  {
    forall t | t in Aligned(g, m) ensures t !in Aligned(g, a) {
      var s :| s in m && SubOf(g.per, s) == SubOf(g.per, t);
      assert !Touches(g.per, a, s);
      assert Touches(g.per, a, t) ==> Touches(g.per, a, s);
    }
  }

  // ---- the tables ------------------------------------------------------------------------------------------

  /** One value for lpns, lp_masks, lp_buf_ids, buf_masks, buf_uids and the contents of the buffers. */
  datatype State = State(lpns: seq<nat>, masks: seq<Mask>, bids: seq<nat>, bufMasks: seq<Mask>, uids: seq<nat>,
      pages: seq<seq<Sector>>)

  ghost predicate Shape(g: Geometry, st: State) {
    && |st.lpns| == |st.masks| == |st.bids| == g.slots
    && |st.bufMasks| == |st.uids| == |st.pages| == g.bufs
    && forall b | 0 <= b < g.bufs :: |st.pages[b]| == g.Sectors()
  }

  predicate Used(st: State, i: nat) { i < |st.lpns| && st.lpns[i] != NULL_LPN }

  /** Slot i is in buffer b. */
  predicate In(st: State, i: nat, b: nat) { Used(st, i) && i < |st.bids| && st.bids[i] == b }

  ghost predicate SlotOk(g: Geometry, st: State, i: nat)
    requires Shape(g, st) && i < g.slots
  {
    if st.lpns[i] == NULL_LPN then st.masks[i] == {} && st.bids[i] == NULL_BID
    else
      && st.masks[i] != {} && InPage(g, st.masks[i]) && st.bids[i] < g.bufs
      && Aligned(g, st.masks[i]) <= st.bufMasks[st.bids[i]]
  }

  /** Two slots of one buffer, or of one page, keep to different sub-pages; those of one page have different owners. */
  ghost predicate PairOk(g: Geometry, st: State, i: nat, j: nat)
    requires Shape(g, st) && i < g.slots && j < g.slots
  {
    Used(st, i) && Used(st, j) && i != j ==>
      && (st.bids[i] == st.bids[j] || st.lpns[i] == st.lpns[j] ==> Aligned(g, st.masks[i]) !! Aligned(g, st.masks[j]))
      && (st.lpns[i] == st.lpns[j] && st.bids[i] < g.bufs && st.bids[j] < g.bufs ==>
           st.uids[st.bids[i]] != st.uids[st.bids[j]])
  }

  ghost predicate Covered(g: Geometry, st: State, b: nat, s: nat)
    requires Shape(g, st)
  {
    exists i: nat :: i < g.slots && In(st, i, b) && s in Aligned(g, st.masks[i])
  }

  ghost predicate BufOk(g: Geometry, st: State, b: nat)
    requires Shape(g, st) && b < g.bufs
  {
    && (st.bufMasks[b] == {} <==> st.uids[b] == NULL_UID)
    && (forall s | s in st.bufMasks[b] :: Covered(g, st, b, s))
  }

  ghost predicate Inv(g: Geometry, st: State) {
    && Shape(g, st)
    && (forall i {:trigger SlotOk(g, st, i)} | 0 <= i < g.slots :: SlotOk(g, st, i))
    && (forall i, j {:trigger PairOk(g, st, i, j)} | 0 <= i < g.slots && 0 <= j < g.slots :: PairOk(g, st, i, j))
    && (forall b {:trigger BufOk(g, st, b)} | 0 <= b < g.bufs :: BufOk(g, st, b))
  }

  // ---- what is buffered --------------------------------------------------------------------------------------

  /** Slot i holds sector s of page l. */
  predicate Holds(st: State, i: nat, l: nat, s: nat)
  {
    i < |st.lpns| && i < |st.masks| && l != NULL_LPN && st.lpns[i] == l && s in st.masks[i]
  }

  /** What slot i says about sector s. */
  ghost function Content(g: Geometry, st: State, i: nat, s: nat): Owned
    requires Inv(g, st) && i < g.slots && Used(st, i) && s in st.masks[i]
  {
    assert SlotOk(g, st, i);
    Owned(st.uids[st.bids[i]], st.pages[st.bids[i]][s])
  }

  ghost function View(g: Geometry, st: State, l: nat, s: nat): Option<Owned>
    requires Inv(g, st)
  {
    if i: nat :| Holds(st, i, l, s) then Some(Content(g, st, i, s)) else None
  }

  lemma OnlyHolder(g: Geometry, st: State, i: nat, j: nat, l: nat, s: nat)
    requires Inv(g, st) && Holds(st, i, l, s) && Holds(st, j, l, s)
    ensures i == j
  {
    assert SlotOk(g, st, i) && SlotOk(g, st, j) && PairOk(g, st, i, j);
    AlignedHolds(g, st.masks[i]);
    AlignedHolds(g, st.masks[j]);
  }

  lemma ViewIs(g: Geometry, st: State, i: nat, l: nat, s: nat)
    requires Inv(g, st) && Holds(st, i, l, s)
    ensures View(g, st, l, s) == Some(Content(g, st, i, s))
  {
    var j: nat :| Holds(st, j, l, s) && View(g, st, l, s) == Some(Content(g, st, j, s));
    OnlyHolder(g, st, i, j, l, s);
  }
}
