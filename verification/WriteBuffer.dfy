/** The write buffer: partial pages of several logical pages and users packed into shared page buffers. */
module WriteBuffer {
  import opened Sectors
  import opened Arith
  import opened Rings
  import opened Sets
  import opened WbState
  import opened WbMoves
  import opened FlashCopy
  import opened WbPush
  import opened WbPull

  ghost function UsedSlots(lpns: seq<nat>): set<nat> { set i: nat | i < |lpns| && lpns[i] != NULL_LPN }

  ghost function CleanBufs(uids: seq<nat>): set<nat> { set b: nat | b < |uids| && uids[b] == NULL_UID }

  lemma CleanAfter(uids: seq<nat>, b: nat, u: nat)
    requires b < |uids|
    ensures CleanBufs(uids[b := u]) == if u == NULL_UID then CleanBufs(uids) + {b} else CleanBufs(uids) - {b}
  {
  }

  lemma UsedAfter(lpns: seq<nat>, i: nat, l: nat)
    requires i < |lpns|
    ensures UsedSlots(lpns[i := l]) == if l == NULL_LPN then UsedSlots(lpns) - {i} else UsedSlots(lpns) + {i}
  {
  }

  /** Buffer b has at least as many sectors as any other, and as many as the head only if it is the head. */
  ghost predicate Fullest(masks: seq<Mask>, head: nat, b: nat) {
    && b < |masks| && (forall c | 0 <= c < |masks| :: |masks[c]| <= |masks[b]|)
    && (head < |masks| && |masks[head]| == |masks[b]| ==> b == head)
  }

  class Buffers {
    const g: Geometry
    const lpns: array<nat>
    const lpMasks: array<Mask>
    const lpBufs: array<nat>             // lp_buf_ids
    const bufMasks: array<Mask>
    const bufSizes: array<nat>
    const bufUids: array<nat>
    const managed: array<bool>           // whether buf_managed_ids names a buffer
    const data: array<seq<Sector>>       // the contents of the managed buffers
    var head: nat                        // head_buf_id
    var numClean: nat                    // num_clean_buffers
    var numLpns: nat
    var nextIdx: nat                     // next_lp_idx, the static of next_index_of_lpn
    ghost var st: State

    ghost predicate Separate() {
      && lpns.Length == lpMasks.Length == lpBufs.Length == g.slots
      && bufMasks.Length == bufSizes.Length == bufUids.Length == managed.Length == data.Length == g.bufs && g.Valid()
      && lpns != lpBufs && lpns != bufSizes && lpns != bufUids && lpBufs != bufSizes && lpBufs != bufUids
      && bufSizes != bufUids
      && lpMasks != bufMasks
      && {managed as object} !! {lpns as object, lpBufs, bufSizes, bufUids, lpMasks, bufMasks, data}
      && {data as object} !! {lpns as object, lpBufs, bufSizes, bufUids, lpMasks, bufMasks}
      && {lpMasks as object, bufMasks} !! {lpns as object, lpBufs, bufSizes, bufUids}
    }

    ghost function Arrays(): set<object>
    {
      {lpns as object, lpBufs, bufSizes, bufUids, lpMasks, bufMasks, managed, data}
    }

    /** st is what the arrays hold. */
    ghost predicate Mirrors()
      reads this`st, lpns, lpMasks, lpBufs, bufMasks, bufUids, data
    {
      st == State(lpns[..], lpMasks[..], lpBufs[..], bufMasks[..], bufUids[..], data[..])
    }

    /** The counters. */
    ghost predicate Counts()
      reads this`st, this`numClean, this`numLpns
    {
      numLpns == |UsedSlots(st.lpns)| && numClean == |CleanBufs(st.uids)|
    }

    ghost predicate Sized()
      reads this`st, bufSizes
    {
      |st.bufMasks| == bufSizes.Length && forall b | 0 <= b < bufSizes.Length :: bufSizes[b] == |st.bufMasks[b]|
    }

    ghost predicate Allocated()
      reads this`st, managed
    {
      |st.uids| == managed.Length && forall b | 0 <= b < managed.Length :: managed[b] <==> st.uids[b] != NULL_UID
    }

    ghost predicate Book()
      reads this`st, this`numClean, this`numLpns, Arrays()
    {
      Separate() && Mirrors() && Shape(g, st) && Counts() && Sized()
    }

    ghost predicate Valid()
      reads this, Arrays()
    {
      Book() && Allocated() && Inv(g, st) && head < g.bufs && nextIdx == 0
    }

    /** Page l, sector s, as the buffer has it. */
    ghost function Buffered(l: nat, s: nat): Option<Owned>
      requires Valid()
      reads this, Arrays()
    {
      View(g, st, l, s)
    }

    /** The tables, with nothing set up in them. */
    constructor (g: Geometry)
      requires g.Valid()
      ensures Separate() && this.g == g && forall b | 0 <= b < g.bufs :: |data[b]| == g.Sectors()
    {
      this.g := g;
      lpns, lpMasks, lpBufs := new nat[g.slots], new Mask[g.slots], new nat[g.slots];
      bufMasks, bufSizes, bufUids := new Mask[g.bufs], new nat[g.bufs], new nat[g.bufs];
      managed := new bool[g.bufs];
      data := new seq<Sector>[g.bufs](_ => seq(g.Sectors(), s => 0));
    }

    /** write_buffer_init: nothing is buffered. */
    method Init()
      requires Separate() && forall b | 0 <= b < g.bufs :: |data[b]| == g.Sectors()
      modifies this, Arrays()
      ensures Valid() && forall l, s :: View(g, st, l, s) == None
      ensures numLpns == 0 && numClean == g.bufs
    {
      InitSlots();
      InitBuffers();
      Begin();
    }

    method Begin()
      requires Separate() && forall b | 0 <= b < g.bufs :: |data[b]| == g.Sectors()
      requires forall i | 0 <= i < g.slots :: lpns[i] == NULL_LPN && lpMasks[i] == {} && lpBufs[i] == NULL_BID
      requires forall b | 0 <= b < g.bufs ::
        bufMasks[b] == {} && bufSizes[b] == 0 && bufUids[b] == NULL_UID && !managed[b]
      modifies this
      ensures Valid() && forall l, s :: View(g, st, l, s) == None
      ensures numLpns == 0 && numClean == g.bufs
    {
      head, numClean, numLpns, nextIdx := 0, g.bufs, 0, 0;
      st := State(lpns[..], lpMasks[..], lpBufs[..], bufMasks[..], bufUids[..], data[..]);
      NothingBuffered(g, st);
    }

    method InitSlots()
      requires Separate()
      modifies lpns, lpMasks, lpBufs
      ensures forall i | 0 <= i < g.slots :: lpns[i] == NULL_LPN && lpMasks[i] == {} && lpBufs[i] == NULL_BID
    {
      for i := 0 to g.slots
        invariant forall j | 0 <= j < i :: lpns[j] == NULL_LPN && lpMasks[j] == {} && lpBufs[j] == NULL_BID
      {
        lpns[i], lpMasks[i], lpBufs[i] := NULL_LPN, {}, NULL_BID;
      }
    }

    method InitBuffers()
      requires Separate()
      modifies bufMasks, bufSizes, bufUids, managed
      ensures forall b | 0 <= b < g.bufs ::
        bufMasks[b] == {} && bufSizes[b] == 0 && bufUids[b] == NULL_UID && !managed[b]
    {
      for b := 0 to g.bufs
        invariant forall c | 0 <= c < b ::
          bufMasks[c] == {} && bufSizes[c] == 0 && bufUids[c] == NULL_UID && !managed[c]
      {
        bufMasks[b], bufSizes[b], bufUids[b], managed[b] := {}, 0, NULL_UID, false;
      }
    }

    // ---- masks -----------------------------------------------------------------------------------------------

    /** buf_mask_align_to_sp: sub-page by sub-page. */
    method AlignToSubPage(m: Mask) returns (r: Mask)
      requires g.Valid() && InPage(g, m)
      ensures r == Aligned(g, m)
    {
      r := m;
      for k := 0 to g.subs
        invariant forall t: nat :: t in r <==> t in m || (t in Aligned(g, m) && SubOf(g.per, t) < k)
      {
        var sub := SubPage(g, k);
        if r * sub != {} {
          OneSubPage(g, m, r, k);
          r := r + sub;
        } else {
          NoSubPage(g, m, r, k);
        }
      }
      AlignedHolds(g, m);
      forall t | t in Aligned(g, m) ensures t in r {
        SubInPage(g, t);
      }
    }

    // ---- elementary writes -----------------------------------------------------------------------------------

    method SetBufMask(b: nat, m: Mask)
      requires Book() && b < g.bufs
      modifies this`st, bufMasks, bufSizes
      ensures Book() && st == old(st).(bufMasks := old(st).bufMasks[b := m])
      ensures bufSizes[b] == |m|
    {
      bufMasks[b] := m;
      bufSizes[b] := |m|;
      st := st.(bufMasks := st.bufMasks[b := m]);
    }

    method SetUid(b: nat, u: nat)
      requires Book() && b < g.bufs
      modifies this`st, this`numClean, bufUids
      ensures Separate() && Mirrors() && Sized() && st == old(st).(uids := old(st).uids[b := u])
      ensures numClean == old(numClean)
    {
      bufUids[b] := u;
      st := st.(uids := st.uids[b := u]);
    }

    /** free_buf. */
    method FreeBuf(b: nat)
      requires Book() && b < g.bufs && st.uids[b] != NULL_UID
      modifies this`st, this`numClean, bufUids, managed
      ensures Book() && st == old(st).(uids := old(st).uids[b := NULL_UID])
      ensures !managed[b] && forall c | 0 <= c < g.bufs && c != b :: managed[c] == old(managed[c])
    {
      if managed[b] {
        managed[b] := false;
      }
      CleanAfter(st.uids, b, NULL_UID);
      SetUid(b, NULL_UID);
      numClean := numClean + 1;
    }

    /** allocate_buf, and the new owner: a managed buffer with whatever is in it. */
    method AllocateBuf(b: nat, u: nat, page: seq<Sector>)
      requires Book() && b < g.bufs && st.uids[b] == NULL_UID && u != NULL_UID && |page| == g.Sectors()
      modifies this`st, this`numClean, bufUids, managed, data
      ensures Book() && st == old(st).(uids := old(st).uids[b := u], pages := old(st).pages[b := page])
      ensures managed[b] && forall c | 0 <= c < g.bufs && c != b :: managed[c] == old(managed[c])
    {
      managed[b] := true;
      assert b in CleanBufs(st.uids);
      CleanAfter(st.uids, b, u);
      SetUid(b, u);
      numClean := numClean - 1;
      SetPage(b, page);
    }

    method SetPage(b: nat, page: seq<Sector>)
      requires Book() && b < g.bufs && |page| == g.Sectors()
      modifies this`st, data
      ensures Book() && st == old(st).(pages := old(st).pages[b := page])
    {
      data[b] := page;
      st := st.(pages := st.pages[b := page]);
    }

    method SetMask(i: nat, m: Mask)
      requires Book() && i < g.slots
      modifies this`st, lpMasks
      ensures Book() && st == old(st).(masks := old(st).masks[i := m])
    {
      lpMasks[i] := m;
      st := st.(masks := st.masks[i := m]);
    }

    method SetBid(i: nat, b: nat)
      requires Book() && i < g.slots
      modifies this`st, lpBufs
      ensures Book() && st == old(st).(bids := old(st).bids[i := b])
    {
      lpBufs[i] := b;
      st := st.(bids := st.bids[i := b]);
    }

    method SetLpn(i: nat, l: nat)
      requires Book() && i < g.slots && (st.lpns[i] == NULL_LPN <==> l != NULL_LPN)
      modifies this`st, this`numLpns, lpns
      ensures Book() && st == old(st).(lpns := old(st).lpns[i := l])
    {
      assert l == NULL_LPN ==> i in UsedSlots(st.lpns);
      UsedAfter(st.lpns, i, l);
      lpns[i] := l;
      st := st.(lpns := st.lpns[i := l]);
      numLpns := if l == NULL_LPN then numLpns - 1 else numLpns + 1;
    }

    /** buf_mask_add. */
    method BufMaskAdd(b: nat, m: Mask)
      requires Book() && b < g.bufs && InPage(g, m)
      modifies this`st, bufMasks, bufSizes
      ensures Book() && st == old(st).(bufMasks := old(st).bufMasks[b := old(st).bufMasks[b] + Aligned(g, m)])
    {
      var aligned := AlignToSubPage(m);
      SetBufMask(b, bufMasks[b] + aligned);
    }

    /** buf_mask_remove: a buffer with nothing left in it is freed. */
    method BufMaskRemove(b: nat, m: Mask)
      requires Book() && b < g.bufs && InPage(g, m) && st.uids[b] != NULL_UID
      modifies this`st, this`numClean, bufMasks, bufSizes, bufUids, managed
      ensures Book()
      ensures var left := old(st).bufMasks[b] - Aligned(g, m);
        st == old(st).(bufMasks := old(st).bufMasks[b := left], uids := Vacated(old(st).uids, b, left))
      ensures managed[b] == (old(managed[b]) && st.uids[b] != NULL_UID)
      ensures forall c | 0 <= c < g.bufs && c != b :: managed[c] == old(managed[c])
    {
      var aligned := AlignToSubPage(m);
      SetBufMask(b, bufMasks[b] - aligned);
      if bufSizes[b] == 0 {
        FreeBuf(b);
      }
    }

    /** remove_lp_by_index. */
    method RemoveLp(i: nat)
      requires Book() && i < g.slots && Used(st, i) && st.bids[i] < g.bufs && InPage(g, st.masks[i])
      requires st.uids[st.bids[i]] != NULL_UID
      modifies this`st, this`numClean, this`numLpns, lpns, lpMasks, lpBufs, bufMasks, bufSizes, bufUids, managed
      ensures Book() && st == Remove(g, old(st), i)
      ensures var b := old(st).bids[i];
        && managed[b] == (old(managed[b]) && st.uids[b] != NULL_UID)
        && forall c | 0 <= c < g.bufs && c != b :: managed[c] == old(managed[c])
    {
      var mask, b := lpMasks[i], lpBufs[i];
      SetLpn(i, NULL_LPN);
      SetMask(i, {});
      SetBid(i, NULL_BID);
      BufMaskRemove(b, mask);
    }

    // ---- searches ----------------------------------------------------------------------------------------------

    /** next_index_of_lpn: the next slot of page l, starting again when there is none. */
    method NextIndexOfLpn(l: nat) returns (found: bool, i: nat)
      requires Book() && nextIdx <= g.slots
      modifies this`nextIdx
      ensures found ==> old(nextIdx) <= i < g.slots && st.lpns[i] == l && nextIdx == i + 1
      ensures found ==> forall j | old(nextIdx) <= j < i :: st.lpns[j] != l
      ensures !found ==> nextIdx == 0 && forall j | old(nextIdx) <= j < g.slots :: st.lpns[j] != l
    {
      i := nextIdx;
      while i < g.slots && lpns[i] != l
        invariant nextIdx <= i <= g.slots && forall j | nextIdx <= j < i :: st.lpns[j] != l
      {
        i := i + 1;
      }
      found := i < g.slots;
      nextIdx := if found then i + 1 else 0;
    }

    /** write_buffer_is_full. */
    method IsFull() returns (full: bool)
      ensures full <==> numLpns == g.slots || numClean == 0
    {
      full := numLpns == g.slots || numClean == 0;
    }

    /** get_free_lp_index: there is one while the slots are not all used. */
    method FreeSlot() returns (i: nat)
      requires Book() && numLpns < g.slots
      ensures i < g.slots && st.lpns[i] == NULL_LPN
    {
      ghost var free := Missing(UsedSlots(st.lpns), Below(g.slots));
      i := 0;
      while lpns[i] != NULL_LPN
        invariant i < g.slots && forall j | 0 <= j < i :: lpns[j] != NULL_LPN
        decreases g.slots - i
      {
        i := i + 1;
      }
    }

    // ---- allocation ------------------------------------------------------------------------------------------

    /** The buffer is as it was before, but now belongs to the user. */
    ghost predicate Reserved(before: State, after: State, b: nat, u: nat)
      requires Shape(g, before) && Shape(g, after) && b < g.bufs
    {
      && after == before.(uids := before.uids[b := u], pages := before.pages[b := after.pages[b]])
      && (before.bufMasks[b] != {} ==> after.pages[b] == before.pages[b])
    }

    /** The search of allocate_buffer_for. With a clean buffer left it finds one before it is around. */
    method FirstFor(m: Mask, u: nat) returns (b: nat)
      requires Book() && Inv(g, st) && head < g.bufs && numClean > 0
      ensures FirstRoom(st, head, m, u, b)
    {
      ghost var clean := SomeClean(g, st);
      var k := 0;
      b := head;
      while bufMasks[b] != {} && !(bufUids[b] == u && bufMasks[b] * m == {})
        invariant 0 <= k < g.bufs && b == Slot(head, k, g.bufs) < g.bufs
        invariant NoRoomBefore(st, head, m, u, k)
        decreases g.bufs - k
      {
        NotAllAround(st.bufMasks, head, k, clean);
        b := if b + 1 < g.bufs then b + 1 else 0;
        k := k + 1;
      }
    }

    /** allocate_buffer_for: from the head buffer on, the first one that is clean, or is the user's and has the sectors
        free. With a clean buffer left there is always one. */
    method AllocateBufferFor(m: Mask, u: nat) returns (b: nat)
      requires Book() && Allocated() && Inv(g, st) && head < g.bufs && numClean > 0 && u != NULL_UID
      modifies this`st, this`numClean, bufUids, managed, data
      ensures Book() && Allocated() && b < g.bufs && Reserved(old(st), st, b, u)
      ensures m !! old(st).bufMasks[b] && FirstRoom(old(st), head, m, u, b)
    {
      b := FirstFor(m, u);
      assert BufOk(g, st, b);
      NoneInCommon(m, st.bufMasks[b]);
      if bufMasks[b] == {} {
        var page: seq<Sector> := *;
        if |page| != g.Sectors() {
          page := data[b];
        }
        AllocateBuf(b, u, page);
      }
    }

    // ---- push --------------------------------------------------------------------------------------------------

    ghost predicate Sound()
      reads this`st, this`numClean, this`numLpns, Arrays()
    {
      Book() && Allocated() && Inv(g, st)
    }

    method ShrinkSlot(i: nat, rest: Mask, common: Mask)
      requires Book() && Allocated() && i < g.slots && st.bids[i] < g.bufs && InPage(g, common)
      requires st.uids[st.bids[i]] != NULL_UID
      requires rest == st.masks[i] - common && st.bufMasks[st.bids[i]] - Aligned(g, common) != {}
      modifies this`st, this`numClean, lpMasks, bufMasks, bufSizes, bufUids, managed
      ensures Book() && Allocated() && st == Shrink(g, old(st), i, common)
    {
      SetMask(i, rest);
      BufMaskRemove(lpBufs[i], common);
    }

    /** Another user's slot i loses the sub-pages that are being written; it is given up if nothing is left. */
    method TakeFrom(i: nat, aligned: Mask, ghost m: Mask)
      requires Sound() && i < g.slots && Used(st, i) && InPage(g, m) && aligned == Aligned(g, m)
      modifies this`st, this`numClean, this`numLpns, lpns, lpMasks, lpBufs, bufMasks, bufSizes, bufUids, managed
      ensures Sound() && old(st).bids[i] < g.bufs && st == Taken(g, old(st), i, aligned)
      ensures numLpns <= old(numLpns) && numClean >= old(numClean)
    {
      TakeKeepsInv(g, st, i, m);
      TakenCounts(g, st, i, aligned);
      assert SlotOk(g, st, i) && BufOk(g, st, st.bids[i]);
      AlignedIsNotEmpty(g, st.masks[i]);
      var common := aligned * lpMasks[i];
      var rest := lpMasks[i] - common;
      assert rest == lpMasks[i] - aligned;
      if rest != {} {
        ShrinkVacatesNothing(g, st, i, m);
        ShrinkSlot(i, rest, common);
      } else {
        RemoveLp(i);
      }
    }

    /** One round of the first loop of write_buffer_push, at slot i. */
    method CutAt(ghost st0: State, l: nat, m: Mask, aligned: Mask, u: nat, i: nat, before: nat) returns (mine: nat)
      requires Sound() && l != NULL_LPN && InPage(g, m) && aligned == Aligned(g, m) && i < g.slots && st.lpns[i] == l
      requires Trimming(g, st0, st, l, aligned, u) && Scanned(g, st, l, aligned, u, i, before)
      modifies this`st, this`numClean, this`numLpns, lpns, lpMasks, lpBufs, bufMasks, bufSizes, bufUids, managed
      ensures Sound() && Trimming(g, st0, st, l, aligned, u) && Scanned(g, st, l, aligned, u, i + 1, mine)
      ensures numLpns <= old(numLpns) && numClean >= old(numClean)
    {
      assert SlotOk(g, st, i);
      if bufUids[lpBufs[i]] == u {
        ScanOwn(g, st, l, aligned, u, i, before);
        mine := i;
      } else {
        TakeKeepsTrim(g, st0, st, i, l, m, u);
        ScanTaken(g, st, l, m, u, i, before);
        mine := before;
        TakeFrom(i, aligned, m);
      }
    }

    /** The first loop of write_buffer_push: the other users' slots of the page are cut back, and the user's own is
        found. */
    method CutOthers(l: nat, m: Mask, aligned: Mask, u: nat) returns (mine: nat)
      requires Sound() && nextIdx == 0 && l != NULL_LPN && InPage(g, m) && aligned == Aligned(g, m)
      modifies this`st, this`numClean, this`numLpns, this`nextIdx, lpns, lpMasks, lpBufs, bufMasks, bufSizes, bufUids
      modifies managed
      ensures Sound() && nextIdx == 0 && Cut(g, old(st), st, l, m, u) && Mine(g, st, l, u, mine)
      ensures numLpns <= old(numLpns) && numClean >= old(numClean)
    {
      mine := g.slots;
      forall l', s ensures TrimAt(g, st, st, l, aligned, u, l', s) {
      }
      var found, i := NextIndexOfLpn(l);
      while found
        invariant Sound() && Trimming(g, old(st), st, l, aligned, u) && numLpns <= old(numLpns)
        invariant numClean >= old(numClean)
        invariant if found then i < g.slots && st.lpns[i] == l && nextIdx == i + 1 else nextIdx == 0
        invariant Scanned(g, st, l, aligned, u, if found then i else g.slots, mine)
        decreases found, g.slots - i
      {
        var j := i;
        mine := CutAt(old(st), l, m, aligned, u, j, mine);
        found, i := NextIndexOfLpn(l);
        ScanOn(g, st, l, aligned, u, j + 1, if found then i else g.slots, mine);
      }
    }

    /** The end of write_buffer_push: the sectors are copied into buffer b, and its mask extended. */
    method CopyIn(b: nat, m: Mask, from: seq<Sector>)
      requires Book() && b < g.bufs && InPage(g, m) && |from| == g.Sectors()
      modifies this`st, data, bufMasks, bufSizes
      ensures Book() && st == CopiedIn(g, old(st), b, m, from)
    {
      var page := CopySectors(data[b], from, m);
      SetPage(b, page);
      BufMaskAdd(b, m);
    }

    method FillSlot(i: nat, l: nat, m: Mask, b: nat)
      requires Book() && i < g.slots && st.lpns[i] == NULL_LPN && l != NULL_LPN
      modifies this`st, this`numLpns, lpns, lpMasks, lpBufs
      ensures Book()
      ensures st == old(st).(lpns := old(st).lpns[i := l], masks := old(st).masks[i := m], bids := old(st).bids[i := b])
    {
      SetLpn(i, l);
      SetMask(i, m);
      SetBid(i, b);
    }

    /** The sectors go to a free slot in buffer b, which has been reserved in state before. */
    method PutInto(ghost st0: State, ghost before: State, l: nat, m: Mask, u: nat, b: nat, from: seq<Sector>)
      returns (ghost i: nat)
      requires Book() && Allocated() && numLpns < g.slots && Inv(g, before) && b < g.bufs && Reserved(before, st, b, u)
      requires Cut(g, st0, before, l, m, u) && Clear(g, before, l, m, u)
      requires m !! before.bufMasks[b] && HasRoom(before, m, u, b)
      requires l != NULL_LPN && u != NULL_UID && m != {} && InPage(g, m) && |from| == g.Sectors()
      modifies this`st, this`numClean, this`numLpns, Arrays()
      ensures Sound() && Pushed(g, st0, st, l, m, u, from)
      ensures i < g.slots && before.lpns[i] == NULL_LPN && IsPlaced(st, l, m, i, b)
    {
      ghost var st1 := st;
      var slot := FreeSlot();
      i := slot;
      FillSlot(slot, l, m, b);
      CopyIn(b, m, from);
      NewFits(g, before, st1, i, l, m, u, b, from);
      PushNew(g, st0, before, i, l, m, u, b, Masked(st1.pages[b], from, m), from);
      assert st == Insert(g, before, i, l, m, b, u, Masked(st1.pages[b], from, m));
    }

    /** A page of which the user has nothing in the buffer. */
    method PutNew(ghost st0: State, l: nat, m: Mask, u: nat, from: seq<Sector>) returns (ghost i: nat, ghost b: nat)
      requires Sound() && head < g.bufs && numClean > 0 && numLpns < g.slots
      requires l != NULL_LPN && u != NULL_UID && m != {} && InPage(g, m) && |from| == g.Sectors()
      requires Cut(g, st0, st, l, m, u) && Mine(g, st, l, u, g.slots)
      modifies this`st, this`numClean, this`numLpns, Arrays()
      ensures Sound() && Pushed(g, st0, st, l, m, u, from)
      ensures i < g.slots && Placed(g, old(st), head, l, m, u, i, b) && IsPlaced(st, l, m, i, b)
    {
      ClearForNew(g, st, l, m, u);
      ghost var before := st;
      var buf := AllocateBufferFor(m, u);
      b := buf;
      i := PutInto(st0, before, l, m, u, buf, from);
    }

    /** The user's slot i of the page, in the buffer where it is. */
    method PutInPlace(ghost st0: State, i: nat, l: nat, m: Mask, u: nat, from: seq<Sector>)
      requires Sound() && l != NULL_LPN && u != NULL_UID && InPage(g, m) && |from| == g.Sectors()
      requires Cut(g, st0, st, l, m, u) && i < g.slots && Mine(g, st, l, u, i)
      requires m - st.masks[i] !! st.bufMasks[st.bids[i]]
      modifies this`st, lpMasks, bufMasks, bufSizes, data
      ensures Sound() && Pushed(g, st0, st, l, m, u, from) && IsPlaced(st, l, m, i, old(st).bids[i])
    {
      ghost var before := st;
      var b := lpBufs[i];
      ClearForMerge(g, st, i, l, m, u);
      SameBufferFits(g, st, i, l, m, u, from);
      SameBufferWrites(g, st, i, l, m, u, Masked(st.pages[b], from, m));
      PushMerge(g, st0, st, i, l, m, u, b, Masked(st.pages[b], from, m), from);
      SetMask(i, lpMasks[i] + m);
      CopyIn(b, m, from);
    }

    method Transfer(o: nat, was: Mask, b: nat, rest: Mask)
      requires Book() && Allocated() && o < g.bufs && b < g.bufs && b != o && InPage(g, was) && InPage(g, rest)
      requires st.uids[o] != NULL_UID && st.uids[b] != NULL_UID
      modifies this`st, this`numClean, bufMasks, bufSizes, bufUids, managed
      ensures Book() && Allocated()
      ensures var left := old(st).bufMasks[o] - Aligned(g, was);
        st == old(st).(bufMasks := old(st).bufMasks[o := left][b := old(st).bufMasks[b] + Aligned(g, rest)],
            uids := Vacated(old(st).uids, o, left))
    {
      BufMaskRemove(o, was);
      BufMaskAdd(b, rest);
    }

    /** The move of write_buffer_push: what is left of slot i goes from its buffer to buffer b. */
    method Move(i: nat, b: nat, m: Mask)
      requires Book() && Allocated() && i < g.slots && b < g.bufs && st.bids[i] < g.bufs && b != st.bids[i]
      requires InPage(g, st.masks[i]) && InPage(g, m) && st.uids[st.bids[i]] != NULL_UID && st.uids[b] != NULL_UID
      modifies this`st, this`numClean, lpMasks, lpBufs, bufMasks, bufSizes, bufUids, managed, data
      ensures Book() && Allocated() && st == Moved(g, old(st), i, b, m)
    {
      var was, o := lpMasks[i], lpBufs[i];
      var page := CopySectors(data[b], data[o], was - m);
      SetPage(b, page);
      Transfer(o, was, b, was - m);
      SetMask(i, was + m);
      SetBid(i, b);
    }

    /** The user's slot i of the page, when its buffer has no room: the page moves to another buffer. */
    method PutElsewhere(ghost st0: State, i: nat, l: nat, m: Mask, u: nat, from: seq<Sector>) returns (ghost b: nat)
      requires Sound() && head < g.bufs && numClean > 0
      requires l != NULL_LPN && u != NULL_UID && InPage(g, m) && |from| == g.Sectors()
      requires Cut(g, st0, st, l, m, u) && i < g.slots && Mine(g, st, l, u, i)
      modifies this`st, this`numClean, Arrays()
      ensures Sound() && Pushed(g, st0, st, l, m, u, from) && IsPlaced(st, l, m, i, b)
      ensures FirstRoom(old(st), head, old(st).masks[i] + m, u, b)
    {
      ghost var before := st;
      assert SlotOk(g, st, i) && BufOk(g, st, st.bids[i]);
      var buf := AllocateBufferFor(lpMasks[i] + m, u);
      b := buf;
      PushElsewhere(g, st0, before, st, i, l, m, u, b, from);
      MoveAndCopy(i, buf, m, from);
    }

    method MoveAndCopy(i: nat, b: nat, m: Mask, from: seq<Sector>)
      requires Book() && Allocated() && i < g.slots && b < g.bufs && st.bids[i] < g.bufs && b != st.bids[i]
      requires |from| == g.Sectors()
      requires InPage(g, st.masks[i]) && InPage(g, m) && st.uids[st.bids[i]] != NULL_UID && st.uids[b] != NULL_UID
      modifies this`st, this`numClean, lpMasks, lpBufs, bufMasks, bufSizes, bufUids, managed, data
      ensures Book() && Allocated() && Shape(g, Moved(g, old(st), i, b, m))
      ensures st.bids[i] == b && m <= st.masks[i] && st.lpns == old(st).lpns
      ensures st == CopiedIn(g, Moved(g, old(st), i, b, m), b, m, from)
    {
      Move(i, b, m);
      CopyIn(b, m, from);
    }

    /** The second half of write_buffer_push. */
    method PutSectors(ghost st0: State, mine: nat, l: nat, m: Mask, u: nat, from: seq<Sector>)
      returns (ghost i: nat, ghost b: nat)
      requires Sound() && head < g.bufs && numClean > 0 && numLpns < g.slots
      requires l != NULL_LPN && u != NULL_UID && m != {} && InPage(g, m) && |from| == g.Sectors()
      requires Cut(g, st0, st, l, m, u) && Mine(g, st, l, u, mine)
      modifies this`st, this`numClean, this`numLpns, Arrays()
      ensures Sound() && Pushed(g, st0, st, l, m, u, from)
      ensures i < g.slots && Placed(g, old(st), head, l, m, u, i, b) && IsPlaced(st, l, m, i, b)
    {
      if mine < g.slots {
        assert SlotOk(g, st, mine);
        if bufMasks[lpBufs[mine]] * (m - lpMasks[mine]) == {} {
          NoneInCommon(m - st.masks[mine], st.bufMasks[st.bids[mine]]);
          i, b := mine, st.bids[mine];
          PutInPlace(st0, mine, l, m, u, from);
        } else {
          i := mine;
          b := PutElsewhere(st0, mine, l, m, u, from);
        }
      } else {
        i, b := PutNew(st0, l, m, u, from);
      }
    }

    /** write_buffer_push: the sectors from offset on become the user's. Other users lose the sub-pages that they are
        in, and nothing else changes. While the buffer is not full, room is always found: cut is the tables when the
        other users have lost theirs, and the sectors are in slot i and buffer b then. */
    method Push(l: nat, offset: nat, num: nat, u: nat, from: seq<Sector>)
      returns (ghost cut: State, ghost i: nat, ghost b: nat)
      requires Valid() && l != NULL_LPN && u != NULL_UID && |from| == g.Sectors() && offset + num <= g.Sectors()
      requires num > 0 ==> numLpns != g.slots && numClean != 0
      modifies this, Arrays()
      ensures Valid() && head == old(head)
      ensures if num == 0 then st == old(st) else Pushed(g, old(st), st, l, Run(offset, num), u, from)
      ensures num > 0 ==> PutsAt(old(st), cut, l, Run(offset, num), u, i, b)
    {
      if num == 0 {
        return st, 0, 0;
      }
      var m := Run(offset, num);
      assert offset in m;
      cut, i, b := PushMask(l, m, u, from);
    }

    ghost predicate PutsAt(st0: State, cut: State, l: nat, m: Mask, u: nat, i: nat, b: nat)
      reads this`st, this`head
    {
      Cut(g, st0, cut, l, m, u) && i < g.slots && Placed(g, cut, head, l, m, u, i, b) && IsPlaced(st, l, m, i, b)
    }

    method PushMask(l: nat, m: Mask, u: nat, from: seq<Sector>) returns (ghost cut: State, ghost i: nat, ghost b: nat)
      requires Sound() && head < g.bufs && nextIdx == 0 && numLpns != g.slots && numClean != 0
      requires l != NULL_LPN && u != NULL_UID && |from| == g.Sectors() && InPage(g, m) && m != {}
      modifies this`st, this`numClean, this`numLpns, this`nextIdx, Arrays()
      ensures Sound() && nextIdx == 0 && Pushed(g, old(st), st, l, m, u, from)
      ensures PutsAt(old(st), cut, l, m, u, i, b)
    {
      FewSlots(st.lpns);
      var aligned := AlignToSubPage(m);
      var mine := CutOthers(l, m, aligned, u);
      cut := st;
      i, b := PutSectors(old(st), mine, l, m, u, from);
    }

    // ---- pull and drop -----------------------------------------------------------------------------------------

    /** What slot i gives to a pull. */
    method PullFrom(i: nat, l: nat, target: Mask, u: nat, to: seq<Sector>) returns (copied: Mask, r: seq<Sector>)
      requires Sound() && i < g.slots && st.lpns[i] == l != NULL_LPN && |to| == g.Sectors() && InPage(g, target)
      ensures |r| == |to| && InPage(g, copied)
      ensures forall s: nat | s < g.Sectors() :: s in copied <==> s in target && Gives(g, st, l, u, i, s)
      ensures forall s: nat | s < g.Sectors() :: r[s] == if s in copied then Seen(g, st, l, u, s) else to[s]
    {
      assert SlotOk(g, st, i);
      var b := lpBufs[i];
      if bufUids[b] == u {
        copied := lpMasks[i] * target;
        r := CopySectors(to, data[b], copied);
      } else {
        var aligned := AlignToSubPage(lpMasks[i]);
        copied := aligned * target;
        r := CopySectors(to, seq(g.Sectors(), s => 0), copied);
      }
      forall s: nat | s < g.Sectors() && s in copied ensures r[s] == Seen(g, st, l, u, s) {
        SlotGives(g, st, l, u, i, s);
      }
    }

    /** write_buffer_pull. */
    method Pull(l: nat, target: Mask, u: nat, to: seq<Sector>) returns (valid: Mask, r: seq<Sector>)
      requires Valid() && l != NULL_LPN && InPage(g, target) && |to| == g.Sectors()
      modifies this`nextIdx
      ensures Valid() && Pulled(g, st, l, target, u, to, valid, r)
    {
      valid, r := {}, to;
      forall s: nat | s < g.Sectors() ensures PullingAt(g, st, l, target, u, to, 0, valid, r, s) {
      }
      var found, i := NextIndexOfLpn(l);
      PullOn(g, st, l, target, u, to, 0, if found then i else g.slots, valid, r);
      while found
        invariant Sound() && head < g.bufs && Pulling(g, st, l, target, u, to, if found then i else g.slots, valid, r)
        invariant if found then i < g.slots && st.lpns[i] == l && nextIdx == i + 1 else nextIdx == 0
        decreases found, g.slots - i
      {
        var copied, r' := PullFrom(i, l, target, u, r);
        PullSlot(g, st, l, target, u, to, i, valid, r, copied, r');
        valid, r := valid + copied, r';
        var j := i;
        found, i := NextIndexOfLpn(l);
        PullOn(g, st, l, target, u, to, j + 1, if found then i else g.slots, valid, r);
      }
      PullEnds(g, st, l, target, u, to, valid, r);
    }

    /** A slot in use is removed. */
    method GiveUp(i: nat)
      requires Sound() && i < g.slots && Used(st, i)
      modifies this`st, this`numClean, this`numLpns, lpns, lpMasks, lpBufs, bufMasks, bufSizes, bufUids, managed
      ensures Sound() && old(st).bids[i] < g.bufs && st == Remove(g, old(st), i)
    {
      RemoveKeepsInv(g, st, i);
      assert SlotOk(g, st, i) && BufOk(g, st, st.bids[i]);
      AlignedIsNotEmpty(g, st.masks[i]);
      RemoveLp(i);
    }

    /** One round of write_buffer_drop, at slot i. */
    method DropAtSlot(ghost st0: State, i: nat, l: nat)
      requires Sound() && Dropping(g, st0, st, l) && i < g.slots && st.lpns[i] == l != NULL_LPN
      modifies this`st, this`numClean, this`numLpns, lpns, lpMasks, lpBufs, bufMasks, bufSizes, bufUids, managed
      ensures Sound() && Dropping(g, st0, st, l)
      ensures st.lpns == old(st).lpns[i := NULL_LPN]
    {
      DropSlot(g, st0, st, i, l);
      GiveUp(i);
    }

    /** write_buffer_drop: everything of page l goes. */
    method DropPage(l: nat)
      requires Valid() && l != NULL_LPN
      modifies this`st, this`numClean, this`numLpns, this`nextIdx, lpns, lpMasks, lpBufs, bufMasks, bufSizes, bufUids
      modifies managed
      ensures Valid() && Dropped(g, old(st), st, l)
    {
      var found, i := NextIndexOfLpn(l);
      while found
        invariant Sound() && head < g.bufs && Dropping(g, old(st), st, l)
        invariant if found then i < g.slots && st.lpns[i] == l && nextIdx == i + 1 else nextIdx == 0
        invariant forall j | 0 <= j < g.slots && j < (if found then i else g.slots) :: st.lpns[j] != l
        decreases found, g.slots - i
      {
        DropAtSlot(old(st), i, l);
        found, i := NextIndexOfLpn(l);
      }
      DropEnds(g, old(st), st, l);
    }

    // ---- flush -------------------------------------------------------------------------------------------------

    /** find_fullest_buffer: the head buffer has priority. */
    method FindFullest() returns (b: nat)
      requires Book() && head < g.bufs
      ensures Fullest(st.bufMasks, head, b)
    {
      b := 0;
      for c := 0 to g.bufs
        invariant b < g.bufs && forall a | 0 <= a < c :: bufSizes[a] <= bufSizes[b]
      {
        if bufSizes[c] > bufSizes[b] {
          b := c;
        }
      }
      if b != head && bufSizes[head] == bufSizes[b] {
        b := head;
      }
    }

    /** The inner loop of write_buffer_flush: the sub-pages with sectors of page l get its name. */
    method NameSubPages(m: Mask, l: nat, names: seq<nat>) returns (r: seq<nat>)
      requires |names| == g.subs && InPage(g, m)
      ensures Renamed(g, m, l, names, r)
    {
      r := names;
      for k := 0 to g.subs
        invariant |r| == g.subs
        invariant forall j: nat | j < g.subs :: r[j] == if j < k && HasSector(g, m, j) then l else names[j]
      {
        var sub := SubPage(g, k);
        SubPageHas(g, m, k);
        if m * sub != {} {
          r := r[k := l];
        }
      }
    }

    /** The victim's page is handed over, and the buffer gives it up. */
    ghost predicate Emptying(b: nat)
      reads this`st, managed
    {
      && |st.uids| == managed.Length && b < managed.Length && !managed[b]
      && forall c | 0 <= c < managed.Length && c != b :: managed[c] <==> st.uids[c] != NULL_UID
    }

    /** One slot of the victim buffer b. */
    method FlushOne(ghost st0: State, b: nat, ghost u: nat, i: nat, was: Mask, names: seq<nat>)
      returns (valid: Mask, spLpn: seq<nat>)
      requires Book() && Emptying(b) && Flushing(g, st0, st, b, u, was, names) && i < g.slots && In(st, i, b)
      requires GivesUp(st0, st, b)
      modifies this`st, this`numClean, this`numLpns, lpns, lpMasks, lpBufs, bufMasks, bufSizes, bufUids, managed
      ensures Book() && Emptying(b) && Flushing(g, st0, st, b, u, valid, spLpn)
      ensures GivesUp(st0, st, b)
      ensures valid != {} && numLpns < old(numLpns) && forall j: nat :: In(st, j, b) <==> In(old(st), j, b) && j != i
    {
      OneFewer(g, st, i);
      GivesUpSlot(g, st0, st, b, i);
      SlotIsApart(g, st0, st, b, u, was, names, i);
      var m := lpMasks[i];
      valid := was + m;
      spLpn := NameSubPages(m, lpns[i], names);
      MaskInPage(g, m);
      FlushSlot(g, st0, st, b, u, was, names, i, spLpn);
      RemoveLp(i);
    }

    /** The loop of write_buffer_flush over the slots. */
    method FlushSlots(b: nat, ghost u: nat) returns (valid: Mask, spLpn: seq<nat>)
      requires Book() && Emptying(b) && Inv(g, st) && b < g.bufs && u == st.uids[b]
      modifies this`st, this`numClean, this`numLpns, lpns, lpMasks, lpBufs, bufMasks, bufSizes, bufUids, managed
      ensures Book() && Emptying(b) && Flushing(g, old(st), st, b, u, valid, spLpn)
      ensures (forall i: nat | i < g.slots :: !In(st, i, b)) && (valid == {} ==> st == old(st))
      ensures (valid != {} ==> numLpns < old(numLpns)) && GivesUp(old(st), st, b)
    {
      valid, spLpn := {}, seq(g.subs, k => NULL_LPN);
      FlushStarts(g, st, b);
      for i := 0 to g.slots
        invariant Book() && Emptying(b) && Flushing(g, old(st), st, b, u, valid, spLpn)
        invariant (forall j: nat | j < i :: !In(st, j, b))
        invariant (if valid == {} then st == old(st) else numLpns < old(numLpns)) && GivesUp(old(st), st, b)
      {
        assert SlotOk(g, st, i);
        if lpBufs[i] == b {
          valid, spLpn := FlushOne(old(st), b, u, i, valid, spLpn);
        }
      }
    }

    /** The fullest buffer is not empty if something is buffered. */
    method Victim() returns (b: nat)
      requires Valid() && numLpns > 0
      ensures Fullest(st.bufMasks, head, b) && st.uids[b] != NULL_UID
    {
      ghost var i := SomeUsed(g, st);
      assert SlotOk(g, st, i);
      AlignedIsNotEmpty(g, st.masks[i]);
      b := FindFullest();
      NotEmptySize(st.bufMasks[st.bids[i]], Aligned(g, st.masks[i]));
      assert BufOk(g, st, b) && st.bufMasks[b] != {};
    }

    /** write_buffer_flush: the fullest buffer b is given up, with exactly its slots, and the head moves on if it was b.
        The page returned holds, at each valid sector, what was buffered there for the logical page that is named for
        its sub-page; that is gone from the buffer, and nothing else. */
    method Flush() returns (page: seq<Sector>, valid: Mask, spLpn: seq<nat>, ghost b: nat)
      requires Valid() && numLpns > 0
      modifies this`st, this`numClean, this`numLpns, this`head, lpns, lpMasks, lpBufs, bufMasks, bufSizes, bufUids
      modifies managed
      ensures Fullest(old(st).bufMasks, old(head), b) && GivenUp(old(st), st, b)
      ensures page == old(st).pages[b] && head == if b == old(head) then (b + 1) % g.bufs else old(head)
      ensures Valid() && Flushed(g, old(st), st, old(st).uids[b], page, valid, spLpn) && valid != {} && numClean > 0
      ensures numLpns < old(numLpns)
    {
      var victim := Victim();
      b := victim;
      page := data[victim];
      managed[victim] := false;
      valid, spLpn := FlushSlots(victim, st.uids[b]);
      NothingLeft(g, old(st), st, b);
      assert b in CleanBufs(st.uids);
      if victim == head {
        head := (head + 1) % g.bufs;
      }
    }

    /** write_buffer_flush, if the write buffer is full. */
    method FlushIfFull() returns (flushed: bool, page: seq<Sector>, valid: Mask, spLpn: seq<nat>, ghost b: nat)
      requires Valid()
      modifies this`st, this`numClean, this`numLpns, this`head, lpns, lpMasks, lpBufs, bufMasks, bufSizes, bufUids
      modifies managed
      ensures Valid() && numLpns < g.slots && numClean > 0
      ensures flushed <==> old(numLpns) == g.slots || old(numClean) == 0
      ensures flushed ==> Fullest(old(st).bufMasks, old(head), b) && GivenUp(old(st), st, b)
      ensures flushed ==> page == old(st).pages[b] && valid != {}
      ensures flushed ==> Flushed(g, old(st), st, old(st).uids[b], page, valid, spLpn)
      ensures head == if flushed && b == old(head) then (b + 1) % g.bufs else old(head)
      ensures !flushed ==> st == old(st)
    {
      FewSlots(st.lpns);
      flushed := IsFull();
      page, valid, spLpn, b := [], {}, [], 0;
      if flushed {
        FullIsUsed(g, st, numLpns, numClean);
        page, valid, spLpn, b := Flush();
      }
    }

    /** BUFFER_PHASE of a writer that brings less than a page: the fullest buffer is flushed first if there is no
        room. */
    method Store(l: nat, offset: nat, num: nat, u: nat, from: seq<Sector>)
      returns (flushed: bool, page: seq<Sector>, valid: Mask, spLpn: seq<nat>, ghost b: nat, ghost mid: State)
      requires Valid() && l != NULL_LPN && u != NULL_UID && |from| == g.Sectors() && 0 < num
      requires offset + num <= g.Sectors()
      modifies this, Arrays()
      ensures Valid() && (flushed <==> old(numLpns) == g.slots || old(numClean) == 0)
      ensures flushed ==> Fullest(old(st).bufMasks, old(head), b) && GivenUp(old(st), mid, b)
      ensures flushed ==> page == old(st).pages[b] && valid != {}
      ensures flushed ==> Flushed(g, old(st), mid, old(st).uids[b], page, valid, spLpn)
      ensures head == if flushed && b == old(head) then (b + 1) % g.bufs else old(head)
      ensures !flushed ==> mid == old(st)
      ensures Inv(g, mid) && Pushed(g, mid, st, l, Run(offset, num), u, from)
    {
      flushed, page, valid, spLpn, b := FlushIfFull();
      mid := st;
      var _, _, _ := Push(l, offset, num, u, from);
    }
  }

  /** A full write buffer has something to flush. */
  lemma FullIsUsed(g: Geometry, st: State, used: nat, clean: nat)
    requires Inv(g, st) && g.Valid() && used == |UsedSlots(st.lpns)| && clean == |CleanBufs(st.uids)|
    requires (used == g.slots || clean == 0)
    ensures used > 0
  {
    if clean == 0 {
      assert 0 !in CleanBufs(st.uids) && BufOk(g, st, 0);
      var s :| s in st.bufMasks[0];
      assert Covered(g, st, 0, s);
      var i: nat :| i < g.slots && In(st, i, 0) && s in Aligned(g, st.masks[i]);
      assert i in UsedSlots(st.lpns);
    }
  }

  lemma OneFewer(g: Geometry, st: State, i: nat)
    requires Shape(g, st) && Used(st, i) && i < g.slots
    ensures |UsedSlots(st.lpns[i := NULL_LPN])| == |UsedSlots(st.lpns)| - 1
  {
    assert UsedSlots(st.lpns[i := NULL_LPN]) == UsedSlots(st.lpns) - {i} && i in UsedSlots(st.lpns);
  }

  lemma NothingBuffered(g: Geometry, st: State)
    requires Shape(g, st)
    requires forall i | 0 <= i < g.slots :: st.lpns[i] == NULL_LPN && st.masks[i] == {} && st.bids[i] == NULL_BID
    requires forall b | 0 <= b < g.bufs :: st.bufMasks[b] == {} && st.uids[b] == NULL_UID
    ensures Inv(g, st) && forall l, s :: View(g, st, l, s) == None
    ensures |UsedSlots(st.lpns)| == 0 && |CleanBufs(st.uids)| == g.bufs
  {
    assert UsedSlots(st.lpns) == {} && CleanBufs(st.uids) == Below(g.bufs);
    forall l, s ensures View(g, st, l, s) == None {
      assert forall j: nat :: !Holds(st, j, l, s);
    }
  }

  lemma SomeUsed(g: Geometry, st: State) returns (i: nat)
    requires Shape(g, st) && |UsedSlots(st.lpns)| > 0
    ensures i < g.slots && Used(st, i)
  {
    i :| i in UsedSlots(st.lpns);
  }

  lemma NotEmptySize(m: Mask, part: Mask)
    requires part <= m && part != {}
    ensures |m| > 0
  {
    assert m != {};
  }

  /** init_mask. */
  function Run(offset: nat, num: nat): (r: Mask)
    ensures forall s: nat :: s in r <==> offset <= s < offset + num
  {
    Below(offset + num) - Below(offset)
  }

  lemma NoneInCommon(m: Mask, n: Mask)
    requires n * m == {}
    ensures m !! n
  {
    forall s | s in m ensures s !in n {
      assert s !in n * m;
    }
  }

  lemma FewSlots(lpns: seq<nat>)
    ensures |UsedSlots(lpns)| <= |lpns|
  {
    SubsetSize(UsedSlots(lpns), Below(|lpns|));
  }

  lemma TakenCounts(g: Geometry, st: State, i: nat, a: Mask)
    requires Shape(g, st) && i < g.slots && st.bids[i] < g.bufs
    ensures |UsedSlots(Taken(g, st, i, a).lpns)| <= |UsedSlots(st.lpns)|
    ensures |CleanBufs(Taken(g, st, i, a).uids)| >= |CleanBufs(st.uids)|
  {
    SubsetSize(UsedSlots(Taken(g, st, i, a).lpns), UsedSlots(st.lpns));
    SubsetSize(CleanBufs(st.uids), CleanBufs(Taken(g, st, i, a).uids));
  }

  /** The slots before i have been dealt with, and mine is the user's own among them. */
  ghost predicate Scanned(g: Geometry, st: State, l: nat, a: Mask, u: nat, i: nat, mine: nat)
    requires Shape(g, st)
  {
    && (forall j | 0 <= j < g.slots && j < i :: Apart(g, st, l, a, u, j))
    && (if mine < g.slots then mine < i && st.lpns[mine] == l && st.bids[mine] < g.bufs && st.uids[st.bids[mine]] == u
        else mine == g.slots && forall j | 0 <= j < g.slots && j < i && st.lpns[j] == l :: NotOf(g, st, u, j))
  }

  lemma ScanOwn(g: Geometry, st: State, l: nat, a: Mask, u: nat, i: nat, mine: nat)
    requires Shape(g, st) && Scanned(g, st, l, a, u, i, mine) && i < g.slots && st.lpns[i] == l
    requires st.bids[i] < g.bufs && st.uids[st.bids[i]] == u
    ensures Scanned(g, st, l, a, u, i + 1, i)
  {
  }

  lemma ScanTaken(g: Geometry, st: State, l: nat, m: Mask, u: nat, i: nat, mine: nat)
    requires Inv(g, st) && Scanned(g, st, l, Aligned(g, m), u, i, mine) && i < g.slots && st.lpns[i] == l != NULL_LPN
    requires InPage(g, m)
    requires st.bids[i] < g.bufs && st.uids[st.bids[i]] != u
    ensures Shape(g, Taken(g, st, i, Aligned(g, m)))
    ensures Scanned(g, Taken(g, st, i, Aligned(g, m)), l, Aligned(g, m), u, i + 1, mine)
  {
    var a, st' := Aligned(g, m), Taken(g, st, i, Aligned(g, m));
    forall j | 0 <= j < g.slots && j != i
      ensures st'.lpns[j] == st.lpns[j] && st'.masks[j] == st.masks[j] && st'.bids[j] == st.bids[j]
      ensures Used(st, j) ==> st.bids[j] < g.bufs && st'.uids[st.bids[j]] == st.uids[st.bids[j]]
    {
      TakeKeepsOthers(g, st, i, m, j);
    }
    forall j | 0 <= j < g.slots && j < i + 1 ensures Apart(g, st', l, a, u, j) {
      assert j != i ==> Apart(g, st, l, a, u, j);
    }
    if mine == g.slots {
      forall j | 0 <= j < g.slots && j < i + 1 && st'.lpns[j] == l ensures NotOf(g, st', u, j) {
        assert j != i ==> NotOf(g, st, u, j);
      }
    }
  }

  lemma ScanOn(g: Geometry, st: State, l: nat, a: Mask, u: nat, i: nat, k: nat, mine: nat)
    requires Shape(g, st) && Scanned(g, st, l, a, u, i, mine) && i <= k
    requires forall j | i <= j < k && j < g.slots :: st.lpns[j] != l
    ensures Scanned(g, st, l, a, u, k, mine)
  {
    forall j | 0 <= j < g.slots && j < k ensures Apart(g, st, l, a, u, j) {
      assert j < i ==> Apart(g, st, l, a, u, j);
    }
    if mine == g.slots {
      forall j | 0 <= j < g.slots && j < k && st.lpns[j] == l ensures NotOf(g, st, u, j) {
        assert j < i;
      }
    }
  }

  lemma SomeClean(g: Geometry, st: State) returns (b: nat)
    requires Inv(g, st) && CleanBufs(st.uids) != {}
    ensures b < g.bufs && st.bufMasks[b] == {}
  {
    b :| b in CleanBufs(st.uids);
    assert BufOk(g, st, b);
  }

  lemma NotAllAround(masks: seq<Mask>, h: nat, k: nat, clean: nat)
    requires h < |masks| && k < |masks| && clean < |masks| && masks[clean] == {} && masks[Slot(h, k, |masks|)] != {}
    requires forall j | 0 <= j < k :: masks[Slot(h, j, |masks|)] != {}
    ensures k + 1 < |masks|
  {
    var j := if h <= clean then clean - h else clean + |masks| - h;
    assert Slot(h, j, |masks|) == clean;
  }

  lemma SubInPage(g: Geometry, s: nat)
    requires g.Valid() && s < g.Sectors()
    ensures SubOf(g.per, s) < g.subs
  {
    if g.subs <= s / g.per {
      Grows(g.subs, s / g.per, g.per);
    }
  }

  lemma MaskInPage(g: Geometry, m: Mask)
    requires g.Valid() && InPage(g, m)
    ensures forall s <- m :: SubOf(g.per, s) < g.subs
  {
    forall s <- m ensures SubOf(g.per, s) < g.subs {
      SubInPage(g, s);
    }
  }

  lemma OneSubPage(g: Geometry, m: Mask, r: Mask, k: nat)
    requires g.Valid() && InPage(g, m) && r * SubPage(g, k) != {}
    requires forall t: nat :: t in r <==> t in m || (t in Aligned(g, m) && SubOf(g.per, t) < k)
    ensures forall t: nat :: t in r + SubPage(g, k) <==> t in m || (t in Aligned(g, m) && SubOf(g.per, t) < k + 1)
  {
    var s :| s in r * SubPage(g, k);
    assert s in m;
    forall t | t in SubPage(g, k) ensures t in Aligned(g, m) {
      assert Touches(g.per, m, t);
    }
  }

  lemma NoSubPage(g: Geometry, m: Mask, r: Mask, k: nat)
    requires g.Valid() && InPage(g, m) && r * SubPage(g, k) == {}
    requires forall t: nat :: t in r <==> t in m || (t in Aligned(g, m) && SubOf(g.per, t) < k)
    ensures forall t: nat :: t in r <==> t in m || (t in Aligned(g, m) && SubOf(g.per, t) < k + 1)
  {
    forall t | t in Aligned(g, m) ensures SubOf(g.per, t) != k {
      var s :| s in m && SubOf(g.per, s) == SubOf(g.per, t);
      assert s in r && s !in r * SubPage(g, k);
    }
  }
}
