/** What write_buffer_push does to the buffered sectors: first the other users lose the sub-pages written, then the
    sectors go in. */
module WbPush {
  import opened Sectors
  import opened Rings
  import opened WbState
  import opened WbMoves
  import opened FlashCopy

  // ---- the other users' parts --------------------------------------------------------------------------------

  /** Sector s of page l' is as before, or was another user's in the sub-pages a of page l and is gone. */
  ghost predicate TrimAt(g: Geometry, st0: State, st: State, l: nat, a: Mask, u: nat, l': nat, s: nat)
    requires Inv(g, st0) && Inv(g, st)
  {
    || View(g, st, l', s) == View(g, st0, l', s)
    || (l' == l && s in a && View(g, st, l', s) == None && View(g, st0, l', s).Some?
         && View(g, st0, l', s).value.uid != u)
  }

  ghost predicate Trimming(g: Geometry, st0: State, st: State, l: nat, a: Mask, u: nat) {
    && Inv(g, st0) && Inv(g, st)
    && forall l', s {:trigger TrimAt(g, st0, st, l, a, u, l', s)} :: TrimAt(g, st0, st, l, a, u, l', s)
  }

  /** Slot i loses the sub-pages a. */
  ghost function Taken(g: Geometry, st: State, i: nat, a: Mask): State
    requires Shape(g, st) && i < g.slots && st.bids[i] < g.bufs
  {
    if st.masks[i] - a == {} then Remove(g, st, i) else Shrink(g, st, i, a * st.masks[i])
  }

  lemma CutTouches(g: Geometry, m: Mask, cut: Mask, t: nat, r: nat)
    requires cut <= Aligned(g, m) && Touches(g.per, cut, t) && SubOf(g.per, r) == SubOf(g.per, t)
    ensures Touches(g.per, m, r)
  {
    var s :| s in cut && SubOf(g.per, s) == SubOf(g.per, t);
    var q :| q in m && SubOf(g.per, q) == SubOf(g.per, s);
  }

  /** What is cut out along sub-pages shares none with what is left. */
  lemma CutIsClean(g: Geometry, m: Mask, was: Mask)
    requires InPage(g, m) && InPage(g, was)
    ensures Aligned(g, Aligned(g, m) * was) !! Aligned(g, was - Aligned(g, m))
  {
    var cut, rest := Aligned(g, m) * was, was - Aligned(g, m);
    forall t | t in Aligned(g, rest) ensures t !in Aligned(g, cut) {
      var r :| r in rest && SubOf(g.per, r) == SubOf(g.per, t);
      if Touches(g.per, cut, t) {
        CutTouches(g, m, cut, t, r);
      }
    }
  }

  lemma TakeKeepsInv(g: Geometry, st: State, i: nat, m: Mask)
    requires Inv(g, st) && i < g.slots && Used(st, i) && InPage(g, m)
    ensures st.bids[i] < g.bufs && Inv(g, Taken(g, st, i, Aligned(g, m)))
  {
    assert SlotOk(g, st, i);
    if st.masks[i] - Aligned(g, m) == {} {
      RemoveKeepsInv(g, st, i);
    } else {
      CutIsClean(g, m, st.masks[i]);
      assert st.masks[i] - Aligned(g, m) * st.masks[i] == st.masks[i] - Aligned(g, m);
      ShrinkKeepsInv(g, st, i, Aligned(g, m) * st.masks[i]);
    }
  }

  /** Cutting a slot back does not vacate its buffer. */
  lemma ShrinkVacatesNothing(g: Geometry, st: State, i: nat, m: Mask)
    requires Inv(g, st) && i < g.slots && Used(st, i) && InPage(g, m) && st.masks[i] - Aligned(g, m) != {}
    ensures st.bids[i] < g.bufs && st.uids[st.bids[i]] != NULL_UID
    ensures st.bufMasks[st.bids[i]] - Aligned(g, Aligned(g, m) * st.masks[i]) != {}
    ensures st.masks[i] - Aligned(g, m) * st.masks[i] == st.masks[i] - Aligned(g, m)
  {
    var rest := st.masks[i] - Aligned(g, m);
    assert SlotOk(g, st, i) && BufOk(g, st, st.bids[i]);
    CutIsClean(g, m, st.masks[i]);
    AlignedGrows(g, rest, st.masks[i]);
    AlignedIsNotEmpty(g, rest);
    var s :| s in Aligned(g, rest);
    assert s in st.bufMasks[st.bids[i]] - Aligned(g, Aligned(g, m) * st.masks[i]);
  }

  lemma TakeView(g: Geometry, st: State, i: nat, m: Mask, l': nat, s: nat)
    requires Inv(g, st) && i < g.slots && Used(st, i) && InPage(g, m) && st.bids[i] < g.bufs
    requires Inv(g, Taken(g, st, i, Aligned(g, m)))
    ensures View(g, Taken(g, st, i, Aligned(g, m)), l', s) ==
            if Holds(st, i, l', s) && s in Aligned(g, m) then None else View(g, st, l', s)
  {
    if st.masks[i] - Aligned(g, m) == {} {
      RemoveView(g, st, i, l', s);
      assert Holds(st, i, l', s) ==> s !in st.masks[i] - Aligned(g, m);
    } else {
      assert SlotOk(g, st, i);
      CutIsClean(g, m, st.masks[i]);
      assert st.masks[i] - Aligned(g, m) * st.masks[i] == st.masks[i] - Aligned(g, m);
      ShrinkView(g, st, i, Aligned(g, m) * st.masks[i], l', s);
    }
  }

  lemma TakeKeepsTrim(g: Geometry, st0: State, st: State, i: nat, l: nat, m: Mask, u: nat)
    requires Trimming(g, st0, st, l, Aligned(g, m), u) && i < g.slots && st.lpns[i] == l != NULL_LPN && InPage(g, m)
    requires st.bids[i] < g.bufs && st.uids[st.bids[i]] != u
    ensures Trimming(g, st0, Taken(g, st, i, Aligned(g, m)), l, Aligned(g, m), u)
  {
    TakeKeepsInv(g, st, i, m);
    var st' := Taken(g, st, i, Aligned(g, m));
    forall l', s ensures TrimAt(g, st0, st', l, Aligned(g, m), u, l', s) {
      assert TrimAt(g, st0, st, l, Aligned(g, m), u, l', s);
      TakeView(g, st, i, m, l', s);
      if Holds(st, i, l', s) && s in Aligned(g, m) {
        ViewIs(g, st, i, l', s);
      }
    }
  }

  /** Taking sub-pages from one slot leaves the others, and the owners of their buffers, as they were. */
  lemma TakeKeepsOthers(g: Geometry, st: State, i: nat, m: Mask, j: nat)
    requires Inv(g, st) && i < g.slots && Used(st, i) && InPage(g, m) && j < g.slots && j != i && st.bids[i] < g.bufs
    ensures var st' := Taken(g, st, i, Aligned(g, m));
      && st'.lpns[j] == st.lpns[j] && st'.masks[j] == st.masks[j] && st'.bids[j] == st.bids[j]
      && (Used(st, j) ==> st.bids[j] < g.bufs && st'.uids[st.bids[j]] == st.uids[st.bids[j]])
  {
    assert SlotOk(g, st, j);
    if Used(st, j) {
      OthersStay(g, st, i, j);
    }
  }

  /** Slot j is not of page l, or is the user's own, or keeps out of the sub-pages a. */
  ghost predicate Apart(g: Geometry, st: State, l: nat, a: Mask, u: nat, j: nat)
    requires Shape(g, st) && j < g.slots
  {
    st.lpns[j] == l ==> st.bids[j] < g.bufs && (st.uids[st.bids[j]] == u || st.masks[j] !! a)
  }

  /** What is buffered once every other user's slot of the page has been cut back. */
  ghost function Trimmed(v: Option<Owned>, mine: bool, u: nat): Option<Owned> {
    if mine && v.Some? && v.value.uid != u then None else v
  }

  lemma TrimmedView(g: Geometry, st0: State, st: State, l: nat, a: Mask, u: nat, l': nat, s: nat)
    requires Trimming(g, st0, st, l, a, u) && forall j | 0 <= j < g.slots :: Apart(g, st, l, a, u, j)
    ensures View(g, st, l', s) == Trimmed(View(g, st0, l', s), l' == l && s in a, u)
  {
    assert TrimAt(g, st0, st, l, a, u, l', s);
    if l' == l && s in a {
      if j: nat :| Holds(st, j, l', s) {
        ViewIs(g, st, j, l', s);
        assert Apart(g, st, l, a, u, j);
      }
    }
  }

  // ---- the new sectors -----------------------------------------------------------------------------------------

  /** A buffer that is free at the sectors of a mask is free at the whole of their sub-pages. */
  lemma FreeMeansAligned(g: Geometry, st: State, m: Mask, b: nat)
    requires Inv(g, st) && b < g.bufs && InPage(g, m) && m !! st.bufMasks[b]
    ensures Aligned(g, m) !! st.bufMasks[b]
  {
    assert BufOk(g, st, b);
    forall t | t in st.bufMasks[b] ensures t !in Aligned(g, m) {
      assert Covered(g, st, b, t);
      var j: nat :| j < g.slots && In(st, j, b) && t in Aligned(g, st.masks[j]);
      assert SlotOk(g, st, j);
      var mask := st.masks[j];
      var r :| r in mask && SubOf(g.per, r) == SubOf(g.per, t);
      forall s | s in m ensures SubOf(g.per, s) != SubOf(g.per, t) {
        assert s !in Aligned(g, mask);
        assert SubOf(g.per, s) == SubOf(g.per, r) ==> Touches(g.per, mask, s);
      }
    }
  }

  /** The user's own slot of the page is i, or there is none (i is then the number of slots). */
  ghost predicate Mine(g: Geometry, st: State, l: nat, u: nat, i: nat)
    requires Shape(g, st)
  {
    if i < g.slots then st.lpns[i] == l && st.bids[i] < g.bufs && st.uids[st.bids[i]] == u
    else i == g.slots && forall j | 0 <= j < g.slots && st.lpns[j] == l :: NotOf(g, st, u, j)
  }

  ghost predicate NotOf(g: Geometry, st: State, u: nat, j: nat)
    requires Shape(g, st) && j < g.slots
  {
    st.bids[j] < g.bufs && st.uids[st.bids[j]] != u
  }

  /** Without a slot of the user's own, the other slots of the page are clear of the sectors to write. */
  lemma ClearForNew(g: Geometry, st: State, l: nat, m: Mask, u: nat)
    requires Inv(g, st) && Mine(g, st, l, u, g.slots) && InPage(g, m) && l != NULL_LPN
    requires forall j | 0 <= j < g.slots :: Apart(g, st, l, Aligned(g, m), u, j)
    ensures Clear(g, st, l, m, u)
  {
    forall j | 0 <= j < g.slots && st.lpns[j] == l ensures ClearOf(g, st, m, u, j) {
      assert NotOf(g, st, u, j) && Apart(g, st, l, Aligned(g, m), u, j) && SlotOk(g, st, j);
      AlignedMeets(g, st.masks[j], m);
    }
  }

  /** With the user's own slot taken out, the others are clear of its sectors and of those to write. */
  lemma ClearForMerge(g: Geometry, st: State, i: nat, l: nat, m: Mask, u: nat)
    requires Inv(g, st) && i < g.slots && st.lpns[i] == l != NULL_LPN && Mine(g, st, l, u, i) && InPage(g, m)
    requires forall j | 0 <= j < g.slots :: Apart(g, st, l, Aligned(g, m), u, j)
    ensures Clear(g, Remove(g, st, i), l, st.masks[i] + m, u)
  {
    var st' := Remove(g, st, i);
    AlignedOfUnion(g, st.masks[i], m);
    forall j | 0 <= j < g.slots && st'.lpns[j] == l ensures ClearOf(g, st', st.masks[i] + m, u, j) {
      assert PairOk(g, st, i, j) && Apart(g, st, l, Aligned(g, m), u, j) && SlotOk(g, st, j);
      OthersStay(g, st, i, j);
      AlignedMeets(g, st.masks[j], m);
    }
  }

  /** What a push leaves: the new sectors are the user's, and the rest is trimmed. */
  ghost predicate PushedAt(g: Geometry, st0: State, st: State, l: nat, m: Mask, u: nat, from: seq<Sector>, l': nat,
                           s: nat)
    requires Inv(g, st0) && Inv(g, st) && |from| == g.Sectors() && InPage(g, m)
  {
    View(g, st, l', s) ==
      if l' == l && s in m
          then Some(Owned(u, from[s]))
          else Trimmed(View(g, st0, l', s), l' == l && s in Aligned(g, m), u)
  }

  ghost predicate Pushed(g: Geometry, st0: State, st: State, l: nat, m: Mask, u: nat, from: seq<Sector>) {
    && Inv(g, st0) && Inv(g, st) && |from| == g.Sectors() && InPage(g, m)
    && forall l', s {:trigger PushedAt(g, st0, st, l, m, u, from, l', s)} :: PushedAt(g, st0, st, l, m, u, from, l', s)
  }

  /** The other users' parts are gone from st0 to st. */
  ghost predicate Cut(g: Geometry, st0: State, st: State, l: nat, m: Mask, u: nat) {
    Trimming(g, st0, st, l, Aligned(g, m), u) && forall j | 0 <= j < g.slots :: Apart(g, st, l, Aligned(g, m), u, j)
  }

  /** Buffer b can take sectors of user u: it is clean, or it is the user's and has them free. */
  predicate HasRoom(st: State, m: Mask, u: nat, b: nat) {
    b < |st.bufMasks| && b < |st.uids| && (st.bufMasks[b] == {} || (st.uids[b] == u && st.bufMasks[b] * m == {}))
  }

  /** It is the first such buffer from the head on. */
  ghost predicate FirstRoom(st: State, head: nat, m: Mask, u: nat, b: nat) {
    && HasRoom(st, m, u, b)
    && exists k: nat :: k < |st.bufMasks| && b == Slot(head, k, |st.bufMasks|) && NoRoomBefore(st, head, m, u, k)
  }

  ghost predicate NoRoomBefore(st: State, head: nat, m: Mask, u: nat, k: nat) {
    forall j | 0 <= j < k :: !HasRoom(st, m, u, Slot(head, j, |st.bufMasks|))
  }

  /** Where the sectors go when the other users' parts are gone: if the user has slot i of the page, they stay in its
      buffer if that has the new ones free, and otherwise the whole slot goes to the first buffer that has room for it.
      A new slot i goes to the first buffer that has room for the sectors. */
  ghost predicate Placed(g: Geometry, cut: State, head: nat, l: nat, m: Mask, u: nat, i: nat, b: nat)
    requires Shape(g, cut) && i < g.slots
  {
    if cut.lpns[i] == l then
      && Mine(g, cut, l, u, i)
      && if cut.bufMasks[cut.bids[i]] * (m - cut.masks[i]) == {} then b == cut.bids[i]
         else FirstRoom(cut, head, cut.masks[i] + m, u, b)
    else cut.lpns[i] == NULL_LPN && Mine(g, cut, l, u, g.slots) && FirstRoom(cut, head, m, u, b)
  }

  /** Slot i of page l is in buffer b, with the sectors. */
  predicate IsPlaced(st: State, l: nat, m: Mask, i: nat, b: nat) {
    In(st, i, b) && st.lpns[i] == l && i < |st.masks| && m <= st.masks[i]
  }

  /** The sectors go into a slot of their own. */
  lemma PushNew(g: Geometry, st0: State, st: State, i: nat, l: nat, m: Mask, u: nat, b: nat, page: seq<Sector>,
                from: seq<Sector>)
    requires Cut(g, st0, st, l, m, u) && CanInsert(g, st, i, l, m, b, u, page)
    requires |from| == g.Sectors() && forall s <- m :: page[s] == from[s]
    ensures Pushed(g, st0, Insert(g, st, i, l, m, b, u, page), l, m, u, from)
  {
    var st' := Insert(g, st, i, l, m, b, u, page);
    InsertKeepsInv(g, st, i, l, m, b, u, page);
    forall l', s ensures PushedAt(g, st0, st', l, m, u, from, l', s) {
      InsertView(g, st, i, l, m, b, u, page, l', s);
      TrimmedView(g, st0, st, l, Aligned(g, m), u, l', s);
    }
  }

  /** The sectors join those in the user's slot i of the page, in whichever buffer. */
  lemma PushMerge(g: Geometry, st0: State, st: State, i: nat, l: nat, m: Mask, u: nat, b: nat, page: seq<Sector>,
                  from: seq<Sector>)
    requires Cut(g, st0, st, l, m, u) && i < g.slots && st.lpns[i] == l != NULL_LPN && Mine(g, st, l, u, i)
    requires InPage(g, m)
    requires CanInsert(g, Remove(g, st, i), i, l, st.masks[i] + m, b, u, page)
    requires |from| == g.Sectors() && forall s <- m :: page[s] == from[s]
    requires forall s | s in st.masks[i] && s !in m && s < g.Sectors() :: page[s] == st.pages[st.bids[i]][s]
    ensures Pushed(g, st0, Insert(g, Remove(g, st, i), i, l, st.masks[i] + m, b, u, page), l, m, u, from)
  {
    RemoveKeepsInv(g, st, i);
    var without := Remove(g, st, i);
    var st' := Insert(g, without, i, l, st.masks[i] + m, b, u, page);
    InsertKeepsInv(g, without, i, l, st.masks[i] + m, b, u, page);
    assert SlotOk(g, st, i);
    AlignedHolds(g, m);
    forall l', s ensures PushedAt(g, st0, st', l, m, u, from, l', s) {
      InsertView(g, without, i, l, st.masks[i] + m, b, u, page, l', s);
      RemoveView(g, st, i, l', s);
      TrimmedView(g, st0, st, l, Aligned(g, m), u, l', s);
      if Holds(st, i, l', s) {
        ViewIs(g, st, i, l', s);
      }
    }
  }

  // ---- the three ways to put them there -------------------------------------------------------------------------

  /** In a slot of their own: what the writes of write_buffer_push add up to. */
  lemma NewFits(g: Geometry, st: State, st1: State, i: nat, l: nat, m: Mask, u: nat, b: nat, from: seq<Sector>)
    requires Inv(g, st) && Shape(g, st1) && b < g.bufs && m !! st.bufMasks[b]
    requires (st.bufMasks[b] == {} || st.uids[b] == u)
    requires st1 == st.(uids := st.uids[b := u], pages := st.pages[b := st1.pages[b]])
    requires st.bufMasks[b] != {} ==> st1.pages[b] == st.pages[b]
    requires i < g.slots && !Used(st, i) && l != NULL_LPN && u != NULL_UID && m != {} && InPage(g, m)
    requires Clear(g, st, l, m, u)
    requires |from| == g.Sectors()
    ensures CanInsert(g, st, i, l, m, b, u, Masked(st1.pages[b], from, m))
  {
    FreeMeansAligned(g, st, m, b);
  }

  /** Masks, when sectors are added to was within a buffer of mask room. */
  lemma MergedMask(g: Geometry, was: Mask, m: Mask, room: Mask)
    requires Aligned(g, was) <= room && Aligned(g, m - was) !! room
    ensures Aligned(g, was + m) !! room - Aligned(g, was)
    ensures room - Aligned(g, was) + Aligned(g, was + m) == room + Aligned(g, m)
  {
    assert m == m * was + (m - was);
    AlignedOfUnion(g, m * was, m - was);
    AlignedGrows(g, m * was, was);
    AlignedOfUnion(g, was, m);
  }

  /** The buffer where the page's other sectors are has room for the union. */
  lemma SameBufferHasRoom(g: Geometry, st: State, i: nat, m: Mask, u: nat)
    requires Inv(g, st) && i < g.slots && Used(st, i) && st.bids[i] < g.bufs && st.uids[st.bids[i]] == u && InPage(g, m)
    requires m - st.masks[i] !! st.bufMasks[st.bids[i]]
    ensures Fits(g, Remove(g, st, i), st.masks[i] + m, st.bids[i], u)
  {
    assert SlotOk(g, st, i);
    FreeMeansAligned(g, st, m - st.masks[i], st.bids[i]);
    MergedMask(g, st.masks[i], m, st.bufMasks[st.bids[i]]);
  }

  /** In the buffer where the page's other sectors are. */
  lemma SameBufferFits(g: Geometry, st: State, i: nat, l: nat, m: Mask, u: nat, from: seq<Sector>)
    requires Inv(g, st) && i < g.slots && st.lpns[i] == l != NULL_LPN && Mine(g, st, l, u, i) && InPage(g, m)
    requires u != NULL_UID
    requires |from| == g.Sectors() && Clear(g, Remove(g, st, i), l, st.masks[i] + m, u)
    requires m - st.masks[i] !! st.bufMasks[st.bids[i]]
    ensures CanInsert(g, Remove(g, st, i), i, l, st.masks[i] + m, st.bids[i], u, Masked(st.pages[st.bids[i]], from, m))
  {
    var without, all := Remove(g, st, i), st.masks[i] + m;
    assert SlotOk(g, st, i);
    SameBufferHasRoom(g, st, i, m, u);
    AlignedHolds(g, all);
    forall s | s in without.bufMasks[st.bids[i]] ensures s !in all {
      assert s !in Aligned(g, all);
    }
  }

  /** Inserting there writes no more than the masks and the page. */
  lemma SameBufferWrites(g: Geometry, st: State, i: nat, l: nat, m: Mask, u: nat, page: seq<Sector>)
    requires Inv(g, st) && i < g.slots && st.lpns[i] == l != NULL_LPN && Mine(g, st, l, u, i) && InPage(g, m)
    requires m - st.masks[i] !! st.bufMasks[st.bids[i]]
    ensures Insert(g, Remove(g, st, i), i, l, st.masks[i] + m, st.bids[i], u, page) ==
      st.(masks := st.masks[i := st.masks[i] + m], pages := st.pages[st.bids[i] := page],
          bufMasks := st.bufMasks[st.bids[i] := st.bufMasks[st.bids[i]] + Aligned(g, m)])
  {
    var b, was := st.bids[i], st.masks[i];
    assert SlotOk(g, st, i);
    FreeMeansAligned(g, st, m - was, b);
    MergedMask(g, was, m, st.bufMasks[b]);
  }

  /** In another buffer, to which the page's sectors that are not overwritten move first. */
  lemma OtherBufferFits(g: Geometry, st: State, st1: State, i: nat, l: nat, m: Mask, u: nat, b: nat, page: seq<Sector>)
    requires Inv(g, st) && i < g.slots && st.lpns[i] == l != NULL_LPN && Mine(g, st, l, u, i) && InPage(g, m)
    requires u != NULL_UID
    requires b < g.bufs && st.masks[i] + m !! st.bufMasks[b] && (st.bufMasks[b] == {} || st.uids[b] == u)
    requires Clear(g, Remove(g, st, i), l, st.masks[i] + m, u)
    requires |page| == g.Sectors() && forall s | s in st.bufMasks[b] && s < g.Sectors() :: page[s] == st.pages[b][s]
    ensures st.bids[i] < g.bufs && b != st.bids[i]
    ensures CanInsert(g, Remove(g, st, i), i, l, st.masks[i] + m, b, u, page)
  {
    assert SlotOk(g, st, i);
    AlignedIsNotEmpty(g, st.masks[i]);
    AlignedHolds(g, st.masks[i]);
    FreeMeansAligned(g, st, st.masks[i] + m, b);
    var s :| s in st.masks[i];
    assert s in st.bufMasks[st.bids[i]] && s !in st.bufMasks[b];
    assert Fits(g, Remove(g, st, i), st.masks[i] + m, b, u);
  }

  /** Inserting there is what the writes add up to. */
  lemma OtherBufferWrites(g: Geometry, st: State, i: nat, l: nat, m: Mask, u: nat, b: nat, page: seq<Sector>)
    requires Shape(g, st) && i < g.slots && st.lpns[i] == l && b < g.bufs && st.bids[i] < g.bufs && b != st.bids[i]
    ensures var left := st.bufMasks[st.bids[i]] - Aligned(g, st.masks[i]);
      Insert(g, Remove(g, st, i), i, l, st.masks[i] + m, b, u, page) ==
      st.(masks := st.masks[i := st.masks[i] + m], bids := st.bids[i := b], pages := st.pages[b := page],
          bufMasks := st.bufMasks[st.bids[i] := left]
                        [b := st.bufMasks[b] + (Aligned(g, st.masks[i] - m) + Aligned(g, m))],
          uids := Vacated(st.uids, st.bids[i], left)[b := u])
  {
    assert st.masks[i] + m == (st.masks[i] - m) + m;
    AlignedOfUnion(g, st.masks[i] - m, m);
  }

  /** The sectors m are copied into buffer b. */
  ghost function CopiedIn(g: Geometry, st: State, b: nat, m: Mask, from: seq<Sector>): State
    requires Shape(g, st) && b < g.bufs && |from| == g.Sectors()
  {
    st.(pages := st.pages[b := Masked(st.pages[b], from, m)],
        bufMasks := st.bufMasks[b := st.bufMasks[b] + Aligned(g, m)])
  }

  /** What is left of slot i when m is written moves from its buffer to buffer b. */
  ghost function Moved(g: Geometry, st: State, i: nat, b: nat, m: Mask): State
    requires Shape(g, st) && i < g.slots && b < g.bufs && st.bids[i] < g.bufs
  {
    var was, o := st.masks[i], st.bids[i];
    var left := st.bufMasks[o] - Aligned(g, was);
    st.(masks := st.masks[i := was + m], bids := st.bids[i := b],
        pages := st.pages[b := Masked(st.pages[b], st.pages[o], was - m)],
        bufMasks := st.bufMasks[o := left][b := st.bufMasks[b] + Aligned(g, was - m)],
        uids := Vacated(st.uids, o, left))
  }

  lemma PushElsewhere(g: Geometry, st0: State, st: State, st1: State, i: nat, l: nat, m: Mask, u: nat, b: nat,
                      from: seq<Sector>)
    requires Cut(g, st0, st, l, m, u) && i < g.slots && Mine(g, st, l, u, i) && InPage(g, m) && l != NULL_LPN
    requires u != NULL_UID
    requires Shape(g, st1) && b < g.bufs && st.masks[i] + m !! st.bufMasks[b]
    requires (st.bufMasks[b] == {} || st.uids[b] == u)
    requires st1 == st.(uids := st.uids[b := u], pages := st.pages[b := st1.pages[b]])
    requires st.bufMasks[b] != {} ==> st1.pages[b] == st.pages[b]
    requires |from| == g.Sectors()
    ensures st.bids[i] < g.bufs && b != st.bids[i] && Shape(g, Moved(g, st1, i, b, m))
    ensures Pushed(g, st0, CopiedIn(g, Moved(g, st1, i, b, m), b, m, from), l, m, u, from)
  {
    var page := Masked(Masked(st1.pages[b], st.pages[st.bids[i]], st.masks[i] - m), from, m);
    OldPageStays(g, st, st1, i, m, b, from);
    ClearForMerge(g, st, i, l, m, u);
    OtherBufferFits(g, st, st1, i, l, m, u, b, page);
    OtherBufferWrites(g, st, i, l, m, u, b, page);
    PushMerge(g, st0, st, i, l, m, u, b, page, from);
    ElsewhereAddsUp(g, st, st1, i, l, m, u, b, from);
  }

  /** What buffer b held before keeps its place. */
  lemma OldPageStays(g: Geometry, st: State, st1: State, i: nat, m: Mask, b: nat, from: seq<Sector>)
    requires Inv(g, st) && Shape(g, st1) && i < g.slots && st.bids[i] < g.bufs && InPage(g, m) && b < g.bufs
    requires |from| == g.Sectors()
    requires st.masks[i] + m !! st.bufMasks[b] && (st.bufMasks[b] != {} ==> st1.pages[b] == st.pages[b])
    ensures var page := Masked(Masked(st1.pages[b], st.pages[st.bids[i]], st.masks[i] - m), from, m);
      |page| == g.Sectors() && forall s | s in st.bufMasks[b] && s < g.Sectors() :: page[s] == st.pages[b][s]
  {
  }

  lemma ElsewhereAddsUp(g: Geometry, st: State, st1: State, i: nat, l: nat, m: Mask, u: nat, b: nat, from: seq<Sector>)
    requires Shape(g, st) && Shape(g, st1) && i < g.slots && b < g.bufs && st.bids[i] < g.bufs && b != st.bids[i]
    requires |from| == g.Sectors()
    requires st1 == st.(uids := st.uids[b := u], pages := st.pages[b := st1.pages[b]])
    ensures var left := st.bufMasks[st.bids[i]] - Aligned(g, st.masks[i]);
      CopiedIn(g, Moved(g, st1, i, b, m), b, m, from) ==
      st.(masks := st.masks[i := st.masks[i] + m], bids := st.bids[i := b],
          pages := st.pages[b := Masked(Masked(st1.pages[b], st.pages[st.bids[i]], st.masks[i] - m), from, m)],
          bufMasks := st.bufMasks[st.bids[i] := left]
                        [b := st.bufMasks[b] + (Aligned(g, st.masks[i] - m) + Aligned(g, m))],
          uids := Vacated(st.uids, st.bids[i], left)[b := u])
  {
    var o, was := st.bids[i], st.masks[i];
    var left := st.bufMasks[o] - Aligned(g, was);
    VacatedCommutes(st.uids, o, left, b, u);
    TwiceAdded(st.bufMasks[o := left], b, Aligned(g, was - m), Aligned(g, m));
    TwiceWritten(st.pages, b, st1.pages[b], Masked(st1.pages[b], st.pages[o], was - m),
                 Masked(Masked(st1.pages[b], st.pages[o], was - m), from, m));
  }

  lemma VacatedCommutes(uids: seq<nat>, o: nat, left: Mask, b: nat, u: nat)
    requires o < |uids| && b < |uids| && b != o
    ensures Vacated(uids[b := u], o, left) == Vacated(uids, o, left)[b := u]
  {
  }

  lemma TwiceAdded(masks: seq<Mask>, b: nat, m: Mask, n: Mask)
    requires b < |masks|
    ensures masks[b := masks[b] + m][b := masks[b] + m + n] == masks[b := masks[b] + (m + n)]
  {
    assert masks[b] + m + n == masks[b] + (m + n);
  }

  lemma TwiceWritten(pages: seq<seq<Sector>>, b: nat, p: seq<Sector>, q: seq<Sector>, r: seq<Sector>)
    requires b < |pages|
    ensures pages[b := p][b := q][b := r] == pages[b := r]
  {
  }
}
