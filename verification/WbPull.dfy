/** What write_buffer_pull, write_buffer_drop and write_buffer_flush return, in terms of what is buffered. */
module WbPull {
  import opened Sectors
  import opened WbState
  import opened WbMoves

  // ---- pull ----------------------------------------------------------------------------------------------------

  /** Slot j of page l has something to say about sector s to user u: its data, or that the sub-page is another
      user's. */
  ghost predicate Gives(g: Geometry, st: State, l: nat, u: nat, j: nat, s: nat)
    requires Shape(g, st)
  {
    && j < g.slots && st.lpns[j] == l && st.bids[j] < g.bufs
    && if st.uids[st.bids[j]] == u then s in st.masks[j] else s in Aligned(g, st.masks[j])
  }

  ghost predicate GivenBefore(g: Geometry, st: State, l: nat, u: nat, i: nat, s: nat)
    requires Shape(g, st)
  {
    exists j: nat :: j < i && Gives(g, st, l, u, j, s)
  }

  /** Sector s of page l is buffered for user u. */
  ghost predicate Own(g: Geometry, st: State, l: nat, u: nat, s: nat)
    requires Inv(g, st)
  {
    View(g, st, l, s).Some? && View(g, st, l, s).value.uid == u
  }

  /** Another user has written to the sub-page of sector s of page l. */
  ghost predicate Foreign(g: Geometry, st: State, l: nat, u: nat, s: nat)
    requires Inv(g, st)
  {
    exists t :: SubOf(g.per, t) == SubOf(g.per, s) && View(g, st, l, t).Some? && View(g, st, l, t).value.uid != u
  }

  /** What user u reads at sector s of page l: his own data, and zero in the sub-pages of others. */
  ghost function Seen(g: Geometry, st: State, l: nat, u: nat, s: nat): Sector
    requires Inv(g, st)
  {
    if Own(g, st, l, u, s) then View(g, st, l, s).value.data else 0
  }

  lemma SlotGives(g: Geometry, st: State, l: nat, u: nat, j: nat, s: nat)
    requires Inv(g, st) && Gives(g, st, l, u, j, s) && l != NULL_LPN && s < g.Sectors()
    ensures if st.uids[st.bids[j]] == u then Own(g, st, l, u, s) && Seen(g, st, l, u, s) == st.pages[st.bids[j]][s]
            else Foreign(g, st, l, u, s) && Seen(g, st, l, u, s) == 0
  {
    if st.uids[st.bids[j]] == u {
      ViewIs(g, st, j, l, s);
    } else {
      var t :| t in st.masks[j] && SubOf(g.per, t) == SubOf(g.per, s);
      ViewIs(g, st, j, l, t);
      OwnIsNotForeign(g, st, l, u, j, s);
    }
  }

  /** In the sub-pages of another user, the user has nothing. */
  lemma OwnIsNotForeign(g: Geometry, st: State, l: nat, u: nat, j: nat, s: nat)
    requires Inv(g, st) && Gives(g, st, l, u, j, s) && st.uids[st.bids[j]] != u && l != NULL_LPN
    ensures !Own(g, st, l, u, s)
  {
    if k: nat :| Holds(st, k, l, s) {
      ViewIs(g, st, k, l, s);
      assert PairOk(g, st, j, k) && SlotOk(g, st, k);
      AlignedHolds(g, st.masks[k]);
    }
  }

  /** The slots together give what the user may see. */
  lemma AllGiven(g: Geometry, st: State, l: nat, u: nat, s: nat)
    requires Inv(g, st) && l != NULL_LPN && s < g.Sectors()
    ensures GivenBefore(g, st, l, u, g.slots, s) <==> Own(g, st, l, u, s) || Foreign(g, st, l, u, s)
  {
    if GivenBefore(g, st, l, u, g.slots, s) {
      var j: nat :| j < g.slots && Gives(g, st, l, u, j, s);
      SlotGives(g, st, l, u, j, s);
    }
    if Own(g, st, l, u, s) {
      var j: nat :| Holds(st, j, l, s);
      ViewIs(g, st, j, l, s);
      assert SlotOk(g, st, j) && Gives(g, st, l, u, j, s);
    }
    if Foreign(g, st, l, u, s) {
      var t :| SubOf(g.per, t) == SubOf(g.per, s) && View(g, st, l, t).Some? && View(g, st, l, t).value.uid != u;
      var j: nat :| Holds(st, j, l, t);
      ViewIs(g, st, j, l, t);
      assert Touches(g.per, st.masks[j], s);
      assert SlotOk(g, st, j) && Gives(g, st, l, u, j, s);
    }
  }

  /** The result of a pull, when the slots before i have been looked at. */
  ghost predicate PullingAt(g: Geometry, st: State, l: nat, target: Mask, u: nat, to: seq<Sector>, i: nat, valid: Mask,
                            r: seq<Sector>, s: nat)
    requires Inv(g, st) && |to| == |r| == g.Sectors() && s < g.Sectors()
  {
    && (s in valid <==> s in target && GivenBefore(g, st, l, u, i, s))
    && r[s] == if s in valid then Seen(g, st, l, u, s) else to[s]
  }

  ghost predicate Pulling(g: Geometry, st: State, l: nat, target: Mask, u: nat, to: seq<Sector>, i: nat, valid: Mask,
                          r: seq<Sector>)
  {
    && Inv(g, st) && |to| == |r| == g.Sectors() && InPage(g, valid)
    && forall s: nat {:trigger PullingAt(g, st, l, target, u, to, i, valid, r, s)} | s < g.Sectors() ::
         PullingAt(g, st, l, target, u, to, i, valid, r, s)
  }

  /** Slots that are not of the page give nothing. */
  lemma PullOn(g: Geometry, st: State, l: nat, target: Mask, u: nat, to: seq<Sector>, i: nat, k: nat, valid: Mask,
               r: seq<Sector>)
    requires Pulling(g, st, l, target, u, to, i, valid, r) && i <= k
    requires forall j | i <= j < k && j < g.slots :: st.lpns[j] != l
    ensures Pulling(g, st, l, target, u, to, k, valid, r)
  {
    forall s: nat | s < g.Sectors() ensures PullingAt(g, st, l, target, u, to, k, valid, r, s) {
      assert PullingAt(g, st, l, target, u, to, i, valid, r, s);
      if GivenBefore(g, st, l, u, k, s) {
        var j: nat :| j < k && Gives(g, st, l, u, j, s);
        assert j < i;
      }
      if GivenBefore(g, st, l, u, i, s) {
        var j: nat :| j < i && Gives(g, st, l, u, j, s);
        assert j < k && Gives(g, st, l, u, j, s);
      }
    }
  }

  /** Slot i gives its part. */
  lemma PullSlot(g: Geometry, st: State, l: nat, target: Mask, u: nat, to: seq<Sector>, i: nat, valid: Mask,
                 r: seq<Sector>, copied: Mask, r': seq<Sector>)
    requires Pulling(g, st, l, target, u, to, i, valid, r) && l != NULL_LPN && InPage(g, copied) && |r'| == |r|
    requires forall s: nat | s < g.Sectors() :: s in copied <==> s in target && Gives(g, st, l, u, i, s)
    requires forall s: nat | s < g.Sectors() :: r'[s] == if s in copied then Seen(g, st, l, u, s) else r[s]
    ensures Pulling(g, st, l, target, u, to, i + 1, valid + copied, r')
  {
    var next, valid' := i + 1, valid + copied;
    forall s: nat | s < g.Sectors() ensures PullingAt(g, st, l, target, u, to, next, valid', r', s) {
      assert PullingAt(g, st, l, target, u, to, i, valid, r, s);
      if GivenBefore(g, st, l, u, i + 1, s) {
        var j: nat :| j < i + 1 && Gives(g, st, l, u, j, s);
        assert j == i || GivenBefore(g, st, l, u, i, s);
      }
      if GivenBefore(g, st, l, u, i, s) {
        var j: nat :| j < i && Gives(g, st, l, u, j, s);
        assert j < i + 1 && Gives(g, st, l, u, j, s);
      }
      if Gives(g, st, l, u, i, s) {
        assert i < i + 1 && Gives(g, st, l, u, i, s);
      }
    }
  }

  /** What a pull returns: the sectors asked for that are the user's own or in a sub-page of someone else's, and with
      them the user's data, or zeros. */
  ghost predicate Pulled(g: Geometry, st: State, l: nat, target: Mask, u: nat, to: seq<Sector>, valid: Mask,
                         r: seq<Sector>)
  {
    && Inv(g, st) && |r| == |to| == g.Sectors() && InPage(g, valid)
    && forall s: nat | s < g.Sectors() ::
         && (s in valid <==> s in target && (Own(g, st, l, u, s) || Foreign(g, st, l, u, s)))
         && r[s] == if s in valid then Seen(g, st, l, u, s) else to[s]
  }

  lemma PullEnds(g: Geometry, st: State, l: nat, target: Mask, u: nat, to: seq<Sector>, valid: Mask, r: seq<Sector>)
    requires Pulling(g, st, l, target, u, to, g.slots, valid, r) && l != NULL_LPN
    ensures Pulled(g, st, l, target, u, to, valid, r)
  {
    forall s: nat | s < g.Sectors()
      ensures s in valid <==> s in target && (Own(g, st, l, u, s) || Foreign(g, st, l, u, s))
      ensures r[s] == if s in valid then Seen(g, st, l, u, s) else to[s]
    {
      assert PullingAt(g, st, l, target, u, to, g.slots, valid, r, s);
      AllGiven(g, st, l, u, s);
    }
  }

  // ---- drop ----------------------------------------------------------------------------------------------------

  ghost predicate DropAt(g: Geometry, st0: State, st: State, l: nat, l': nat, s: nat)
    requires Inv(g, st0) && Inv(g, st)
  {
    View(g, st, l', s) == View(g, st0, l', s) || (l' == l && View(g, st, l', s) == None)
  }

  ghost predicate Dropping(g: Geometry, st0: State, st: State, l: nat) {
    && Inv(g, st0) && Inv(g, st)
    && forall l', s {:trigger DropAt(g, st0, st, l, l', s)} :: DropAt(g, st0, st, l, l', s)
  }

  lemma DropSlot(g: Geometry, st0: State, st: State, i: nat, l: nat)
    requires Dropping(g, st0, st, l) && i < g.slots && st.lpns[i] == l != NULL_LPN
    ensures st.bids[i] < g.bufs && Dropping(g, st0, Remove(g, st, i), l)
  {
    RemoveKeepsInv(g, st, i);
    var st' := Remove(g, st, i);
    forall l', s ensures DropAt(g, st0, st', l, l', s) {
      assert DropAt(g, st0, st, l, l', s);
      RemoveView(g, st, i, l', s);
    }
  }

  /** Page l is gone, and the other pages are as they were. */
  ghost predicate Dropped(g: Geometry, st0: State, st: State, l: nat) {
    && Inv(g, st0) && Inv(g, st)
    && forall l', s :: View(g, st, l', s) == if l' == l then None else View(g, st0, l', s)
  }

  lemma DropEnds(g: Geometry, st0: State, st: State, l: nat)
    requires Dropping(g, st0, st, l) && forall j | 0 <= j < g.slots :: st.lpns[j] != l
    ensures Dropped(g, st0, st, l)
  {
    forall l', s ensures View(g, st, l', s) == if l' == l then None else View(g, st0, l', s) {
      assert DropAt(g, st0, st, l, l', s);
      assert l' == l ==> forall j: nat :: !Holds(st, j, l', s);
    }
  }

  // ---- flush ---------------------------------------------------------------------------------------------------

  /** Sector s of page l' is in what has been flushed. */
  predicate InFlush(g: Geometry, valid: Mask, spLpn: seq<nat>, l': nat, s: nat) {
    l' != NULL_LPN && s in valid && SubOf(g.per, s) < |spLpn| && spLpn[SubOf(g.per, s)] == l'
  }

  /** A flushed sector was buffered for user u with the data now in the page, and is no longer in the buffer; others
      stay. */
  ghost predicate FlushAt(g: Geometry, st0: State, st: State, u: nat, page: seq<Sector>, valid: Mask, spLpn: seq<nat>,
                          l': nat, s: nat)
    requires Inv(g, st0) && Inv(g, st) && InPage(g, valid) && |page| == g.Sectors()
  {
    && View(g, st, l', s) == (if InFlush(g, valid, spLpn, l', s) then None else View(g, st0, l', s))
    && (InFlush(g, valid, spLpn, l', s) ==> View(g, st0, l', s) == Some(Owned(u, page[s])))
  }

  /** Each sub-page of the result names the one page that its sectors are of, or no page if it has none. */
  ghost predicate Named(g: Geometry, valid: Mask, spLpn: seq<nat>) {
    && |spLpn| == g.subs && InPage(g, valid)
    && (forall s <- valid :: SubOf(g.per, s) < g.subs && spLpn[SubOf(g.per, s)] != NULL_LPN)
    && (forall k | 0 <= k < g.subs && spLpn[k] != NULL_LPN :: HasSector(g, valid, k))
  }

  /** A flush takes exactly what it returns out of the buffer. */
  ghost predicate Flushed(g: Geometry, st0: State, st: State, u: nat, page: seq<Sector>, valid: Mask, spLpn: seq<nat>) {
    && Inv(g, st0) && Inv(g, st) && Named(g, valid, spLpn) && |page| == g.Sectors()
    && forall l', s {:trigger FlushAt(g, st0, st, u, page, valid, spLpn, l', s)} ::
         FlushAt(g, st0, st, u, page, valid, spLpn, l', s)
  }

  /** While buffer b is being flushed: what is left in it keeps out of the sub-pages already taken. */
  ghost predicate Flushing(g: Geometry, st0: State, st: State, b: nat, u: nat, valid: Mask, spLpn: seq<nat>) {
    && b < g.bufs && Shape(g, st) && Flushed(g, st0, st, u, st.pages[b], valid, spLpn)
    && st.pages == st0.pages && Aligned(g, valid) !! st.bufMasks[b] && (st.bufMasks[b] == {} || st.uids[b] == u)
  }

  lemma FlushStarts(g: Geometry, st: State, b: nat)
    requires Inv(g, st) && b < g.bufs
    ensures Flushing(g, st, st, b, st.uids[b], {}, seq(g.subs, k => NULL_LPN))
  {
    var none := seq(g.subs, k => NULL_LPN);
    forall l', s ensures FlushAt(g, st, st, st.uids[b], st.pages[b], {}, none, l', s) {
    }
  }

  /** The names after slot i has been added. */
  ghost predicate Renamed(g: Geometry, m: Mask, l: nat, spLpn: seq<nat>, spLpn': seq<nat>) {
    && |spLpn'| == |spLpn|
    && forall k: nat | k < |spLpn| :: spLpn'[k] == if HasSector(g, m, k) then l else spLpn[k]
  }

  lemma SlotIsApart(g: Geometry, st0: State, st: State, b: nat, u: nat, valid: Mask, spLpn: seq<nat>, i: nat)
    requires Flushing(g, st0, st, b, u, valid, spLpn) && i < g.slots && In(st, i, b)
    ensures st.uids[b] == u != NULL_UID && st.masks[i] != {} && InPage(g, st.masks[i])
    ensures Aligned(g, st.masks[i]) <= st.bufMasks[b]
    ensures forall s, t | s in valid && t in st.masks[i] :: SubOf(g.per, s) != SubOf(g.per, t)
  {
    assert SlotOk(g, st, i) && BufOk(g, st, b);
    AlignedIsNotEmpty(g, st.masks[i]);
    AlignedHolds(g, st.masks[i]);
    forall s, t | s in valid && t in st.masks[i] ensures SubOf(g.per, s) != SubOf(g.per, t) {
      assert t !in Aligned(g, valid);
      assert SubOf(g.per, s) == SubOf(g.per, t) ==> Touches(g.per, valid, t);
    }
  }

  lemma FlushSlotNames(g: Geometry, valid: Mask, m: Mask, l: nat, spLpn: seq<nat>, spLpn': seq<nat>)
    requires Named(g, valid, spLpn) && InPage(g, m) && Renamed(g, m, l, spLpn, spLpn') && l != NULL_LPN
    requires forall s <- m :: SubOf(g.per, s) < g.subs
    requires forall s, t | s in valid && t in m :: SubOf(g.per, s) != SubOf(g.per, t)
    ensures Named(g, valid + m, spLpn')
    ensures forall l', s :: InFlush(g, valid + m, spLpn', l', s) <==>
      InFlush(g, valid, spLpn, l', s) || (l' == l && s in m)
  {
    forall k | 0 <= k < g.subs && spLpn'[k] != NULL_LPN ensures HasSector(g, valid + m, k) {
      var s :| s in (if HasSector(g, m, k) then m else valid) && SubOf(g.per, s) == k;
      assert s in valid + m;
    }
    forall s <- valid + m ensures SubOf(g.per, s) < g.subs && spLpn'[SubOf(g.per, s)] != NULL_LPN {
      assert s in m ==> HasSector(g, m, SubOf(g.per, s));
    }
    forall l', s
      ensures InFlush(g, valid + m, spLpn', l', s) <==> InFlush(g, valid, spLpn, l', s) || (l' == l && s in m)
    {
      assert s in m ==> HasSector(g, m, SubOf(g.per, s));
    }
  }

  lemma FlushSlot(g: Geometry, st0: State, st: State, b: nat, u: nat, valid: Mask, spLpn: seq<nat>, i: nat,
                  spLpn': seq<nat>)
    requires Flushing(g, st0, st, b, u, valid, spLpn) && i < g.slots && In(st, i, b)
    requires Renamed(g, st.masks[i], st.lpns[i], spLpn, spLpn') && forall s <- st.masks[i] :: SubOf(g.per, s) < g.subs
    ensures Flushing(g, st0, Remove(g, st, i), b, u, valid + st.masks[i], spLpn')
  {
    var st', m, l := Remove(g, st, i), st.masks[i], st.lpns[i];
    var valid' := valid + m;
    SlotIsApart(g, st0, st, b, u, valid, spLpn, i);
    FlushSlotNames(g, valid, m, l, spLpn, spLpn');
    RemoveKeepsInv(g, st, i);
    AlignedOfUnion(g, valid, m);
    forall l', s ensures FlushAt(g, st0, st', u, st.pages[b], valid', spLpn', l', s) {
      assert FlushAt(g, st0, st, u, st.pages[b], valid, spLpn, l', s);
      RemoveView(g, st, i, l', s);
      if Holds(st, i, l', s) {
        ViewIs(g, st, i, l', s);
      }
    }
  }

  /** Slot i is as it was. */
  ghost predicate SameSlot(st0: State, st: State, i: nat)
    requires i < |st0.lpns| == |st.lpns| == |st0.masks| == |st.masks| == |st0.bids| == |st.bids|
  {
    st.lpns[i] == st0.lpns[i] && st.masks[i] == st0.masks[i] && st.bids[i] == st0.bids[i]
  }

  /** The slots of buffer b may be gone; the others are as they were, and so are the other buffers. */
  ghost predicate GivesUp(st0: State, st: State, b: nat) {
    && |st0.lpns| == |st.lpns| == |st0.masks| == |st.masks| == |st0.bids| == |st.bids|
    && |st0.bufMasks| == |st.bufMasks| && |st0.uids| == |st.uids| && st.pages == st0.pages
    && (forall i {:trigger st.lpns[i]} {:trigger st0.lpns[i]} | 0 <= i < |st.lpns| ::
          SameSlot(st0, st, i) || (In(st0, i, b) && !Used(st, i)))
    && (forall c | 0 <= c < |st.bufMasks| && c != b :: st.bufMasks[c] == st0.bufMasks[c])
    && (forall c | 0 <= c < |st.uids| && c != b :: st.uids[c] == st0.uids[c])
  }

  lemma GivesUpSlot(g: Geometry, st0: State, st: State, b: nat, i: nat)
    requires GivesUp(st0, st, b) && Shape(g, st) && i < g.slots && In(st, i, b) && b < g.bufs
    ensures GivesUp(st0, Remove(g, st, i), b)
  {
    var st' := Remove(g, st, i);
    forall j: nat | j < g.slots ensures SameSlot(st0, st', j) || (In(st0, j, b) && !Used(st', j)) {
      assert st'.lpns[j] == (if j == i then NULL_LPN else st.lpns[j]);
    }
  }

  /** Buffer b is given up: exactly its slots are gone, and it is clean. */
  ghost predicate GivenUp(st0: State, st: State, b: nat) {
    && GivesUp(st0, st, b) && b < |st.bufMasks| && b < |st.uids| && st.bufMasks[b] == {} && st.uids[b] == NULL_UID
    && (forall i: nat :: Used(st, i) <==> Used(st0, i) && !In(st0, i, b))
  }

  /** When no slot is left in buffer b, it is free. */
  lemma NothingLeft(g: Geometry, st0: State, st: State, b: nat)
    requires Inv(g, st) && b < g.bufs && forall i: nat | i < g.slots :: !In(st, i, b)
    requires GivesUp(st0, st, b)
    ensures GivenUp(st0, st, b)
  {
    forall i: nat ensures Used(st, i) <==> Used(st0, i) && !In(st0, i, b) {
      if i < g.slots {
        assert st.lpns[i] == st.lpns[i] && !In(st, i, b);
        assert SameSlot(st0, st, i) || (In(st0, i, b) && !Used(st, i));
      }
    }
    assert BufOk(g, st, b);
    forall s ensures s !in st.bufMasks[b] {
      assert !Covered(g, st, b, s);
    }
  }
}
