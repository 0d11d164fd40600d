/** Garbage collection: the victim has room, the copy loop loses nothing, the result is a writable block. */
module GreedyGc {
  import opened Arith
  import opened Sets
  import opened GreedyState
  import opened GreedyWrite

  // ---- a victim with room always exists -----------------------------------------------------

  ghost function LpnsInAny(s: State, blocks: set<nat>): set<nat> {
    set l: nat | l < |s.pmap| && Map(s, l) != 0 && BlockOf(s.g, Map(s, l)) in blocks
  }

  /** If each of some blocks holds at least m lpns, together they hold at least m times as many. */
  lemma {:induction false} CountsAddUp(s: State, blocks: set<nat>, m: nat)
    requires forall b <- blocks :: m <= |LpnsIn(s, b)|
    ensures m * |blocks| <= |LpnsInAny(s, blocks)|
  {
    if blocks == {} {
    } else {
      var b :| b in blocks;
      var rest := blocks - {b};
      CountsAddUp(s, rest, m);
      assert LpnsInAny(s, blocks) == LpnsIn(s, b) + LpnsInAny(s, rest);
      assert |blocks| == |rest| + 1;
      OneMore(|rest|, m);
    }
  }

  lemma OneMore(n: nat, m: nat)
    ensures m * (n + 1) == m * n + m
  {
  }

  lemma ProductOrder(a: nat, m: nat, n: nat)
    requires m * a < n * a
    ensures m < n
  {
    if n <= m {
      Grows(n, m, a);
    }
  }

  /** The least count over all blocks is that of a data block with at least one page to spare. */
  lemma VictimHasRoom(s: State, vt: nat)
    requires Tables(s) && s.g.HasSpare() && vt < s.g.blocks
    requires forall b: nat | b < s.g.blocks :: Vc(s, vt) <= Vc(s, b)
    ensures IsData(s, vt) && Vc(s, vt) < s.g.pages - 2
  {
    LeastIsData(s, vt);
    var blocks := DataBlocks(s);
    CountsAddUp(s, blocks, Vc(s, vt));
    SubsetSize(LpnsInAny(s, blocks), Below(s.g.lpages));
    assert |blocks| == s.g.Usable() - 1;
    ProductOrder(|blocks|, Vc(s, vt), s.g.pages - 2);
  }

  lemma LeastIsData(s: State, vt: nat)
    requires Tables(s) && vt < s.g.blocks
    requires forall b: nat | b < s.g.blocks :: Vc(s, vt) <= Vc(s, b)
    ensures IsData(s, vt) && forall b <- DataBlocks(s) :: Vc(s, vt) <= |LpnsIn(s, b)|
  {
    assert DataBlocks(s) != {};
    var other :| other in DataBlocks(s);
    BlockCountBound(s, other);
    forall b <- DataBlocks(s) ensures Vc(s, vt) <= |LpnsIn(s, b)| {
      assert IsData(s, b) && b < |s.vc|;
    }
  }

  // ---- the copy loop ------------------------------------------------------------------------

  /** l was in the victim below page j, so the loop has moved it. */
  ghost predicate Moved(s: State, vt: nat, j: nat, l: nat) {
    Map(s, l) != 0 && BlockOf(s.g, Map(s, l)) == vt && PageOf(s.g, Map(s, l)) < j
  }

  /** The copy loop after j source pages, k of them copied. s is the state before, t the state now. The list
      in t is the victim's own list from page j up; below k it already names the new block. */
  ghost predicate Copying(s: State, t: State, vt: nat, j: nat, k: nat) {
    && t.g == s.g && Shape(t) && t.vc == s.vc && t.gc == s.gc && t.free == s.free
    && k <= j <= LastPage(s.g)
    && (forall b: nat, p: nat | b != s.gc :: At(t, b, p) == At(s, b, p))
    && ErasedFrom(t, s.gc, k)
    && (forall p: nat | p < s.g.pages :: Entry(t.g, t.list, p) < s.g.lpages)
    && (forall p: nat | j <= p < LastPage(s.g) :: Entry(t.g, t.list, p) == Name(s, vt, p))
    && (forall i: nat | i < k :: InCopy(s, t, i))
    && (forall l: nat | l < s.g.lpages :: Placed(s, t, vt, j, k, l))
  }

  /** Where the newest copy of l is now. */
  ghost predicate Placed(s: State, t: State, vt: nat, j: nat, k: nat, l: nat) {
    if Moved(s, vt, j, l) then MovedTo(s, t, k, l) else Map(t, l) == Map(s, l)
  }

  ghost predicate InCopy(s: State, t: State, i: nat) {
    Map(t, Entry(t.g, t.list, i)) == Vpn(s.g, s.gc, i)
  }

  ghost predicate MovedTo(s: State, t: State, k: nat, l: nat) {
    var v, w := Map(s, l), Map(t, l);
    && w != 0 && BlockOf(s.g, w) == s.gc && PageOf(s.g, w) < k
    && Entry(t.g, t.list, PageOf(s.g, w)) == l
    && At(t, s.gc, PageOf(s.g, w)) == At(s, BlockOf(s.g, v), PageOf(s.g, v))
  }

  /** The state collection starts from: every data block is closed. */
  ghost predicate CanCollect(s: State, vt: nat) {
    && Tables(s) && IsData(s, vt) && Vc(s, vt) < s.g.pages - 2
    && (forall b: nat | IsData(s, b) :: IsClosed(s, b))
  }

  lemma CopyStarts(s: State, t: State, vt: nat)
    requires CanCollect(s, vt)
    requires t == s.(list := t.list) && At(s, vt, LastPage(s.g)) == LpnList(t.list)
    ensures Copying(s, t, vt, 0, 0)
  {
    ListLoaded(s, t.list, vt);
    assert forall b: nat, p: nat :: At(t, b, p) == At(s, b, p);
    assert forall l: nat :: Map(t, l) == Map(s, l);
  }

  lemma ListLoaded(s: State, list: seq<nat>, vt: nat)
    requires ListsOk(s) && IsData(s, vt) && At(s, vt, LastPage(s.g)) == LpnList(list)
    ensures |list| == s.g.pages
    ensures forall p: nat | p < s.g.pages :: Entry(s.g, list, p) == Name(s, vt, p) < s.g.lpages
  {
    assert IsClosed(s, vt);
  }

  /** A source page whose lpn is mapped elsewhere holds no newest copy. */
  lemma CopySkips(s: State, t: State, vt: nat, j: nat, k: nat, j': nat)
    requires CanCollect(s, vt) && Copying(s, t, vt, j, k) && j < LastPage(s.g) && j' == j + 1
    requires Map(t, Entry(t.g, t.list, j)) != Vpn(s.g, vt, j)
    ensures Copying(s, t, vt, j', k)
  {
    forall l: nat | l < s.g.lpages ensures Placed(s, t, vt, j', k, l) {
      assert Placed(s, t, vt, j, k, l);
      if Map(s, l) != 0 && BlockOf(s.g, Map(s, l)) == vt {
        assert Mapped(s, l);
        VpnJoins(s.g, Map(s, l));
        assert PageOf(s.g, Map(s, l)) != j;
      }
    }
  }

  /** One page copied: t becomes u, and lpn l moves from page j of the victim to page k of the new block. */
  ghost predicate Copied(s: State, t: State, u: State, vt: nat, j: nat, k: nat, l: nat) {
    && u.g == s.g && Shape(u) && u.vc == s.vc && u.gc == s.gc && u.free == s.free
    && (forall b: nat, p: nat :: At(u, b, p) == if b == s.gc && p == k then At(s, vt, j) else At(t, b, p))
    && (forall m: nat :: Map(u, m) == if m == l then Vpn(s.g, s.gc, k) else Map(t, m))
    && (forall p: nat :: Entry(u.g, u.list, p) == if p == k then l else Entry(t.g, t.list, p))
  }

  lemma CopyMovesLpn(s: State, t: State, u: State, vt: nat, j: nat, k: nat, l: nat, m: nat)
    requires MapOk(s) && |s.pmap| == s.g.lpages && m < s.g.lpages && m != l && j < LastPage(s.g)
    requires Copying(s, t, vt, j, k) && Copied(s, t, u, vt, j, k, l) && Name(s, vt, j) == l && vt != s.gc
    ensures Placed(s, u, vt, j + 1, k + 1, m)
  {
    assert Placed(s, t, vt, j, k, m);
    if Moved(s, vt, j + 1, m) {
      assert Mapped(s, m);
      assert PageOf(s.g, Map(s, m)) != j;
      assert Moved(s, vt, j, m);
      assert MovedTo(s, t, k, m);
    } else {
      assert !Moved(s, vt, j, m);
    }
  }

  /** The three updates of one copy make that state. */
  lemma CopiedByUpdates(s: State, t: State, u: State, vt: nat, j: nat, k: nat, l: nat)
    requires Shape(s) && Shape(t) && t.g == s.g && t.vc == s.vc && t.gc == s.gc && t.free == s.free
    requires vt < s.g.blocks && j < s.g.pages && s.gc < s.g.blocks && k < s.g.pages && l < s.g.lpages && vt != s.gc
    requires forall p: nat :: At(t, vt, p) == At(s, vt, p)
    requires u == t.(flash := t.flash[s.gc := t.flash[s.gc][k := t.flash[vt][j]]],
                     pmap := t.pmap[l := Vpn(s.g, s.gc, k)], list := t.list[k := l])
    ensures Copied(s, t, u, vt, j, k, l)
  {
    assert t.flash[vt][j] == At(t, vt, j) == At(s, vt, j);
  }

  /** The lpn about to move is not one that the new block already holds. */
  lemma NotCopiedYet(s: State, t: State, vt: nat, j: nat, k: nat, i: nat)
    requires InCopy(s, t, i) && i < s.g.pages && vt != s.gc && j < s.g.pages
    requires Map(t, Entry(t.g, t.list, j)) == Vpn(s.g, vt, j)
    ensures Entry(t.g, t.list, i) != Entry(t.g, t.list, j)
  {
    VpnParts(s.g, s.gc, i);
    VpnParts(s.g, vt, j);
  }

  lemma CopyMovesNames(s: State, t: State, u: State, vt: nat, j: nat, k: nat)
    requires Copying(s, t, vt, j, k) && j < LastPage(s.g) && vt != s.gc
    requires Map(t, Entry(t.g, t.list, j)) == Vpn(s.g, vt, j) && Copied(s, t, u, vt, j, k, Entry(t.g, t.list, j))
    ensures forall i: nat | i < k + 1 :: InCopy(s, u, i)
  {
    forall i: nat | i < k + 1 ensures InCopy(s, u, i) {
      if i < k {
        assert InCopy(s, t, i);
        NotCopiedYet(s, t, vt, j, k, i);
      }
    }
  }

  lemma MovingLpn(s: State, t: State, vt: nat, j: nat, k: nat)
    requires CanCollect(s, vt) && Copying(s, t, vt, j, k) && j < LastPage(s.g)
    requires Map(t, Entry(t.g, t.list, j)) == Vpn(s.g, vt, j)
    ensures var l := Entry(t.g, t.list, j);
      && l == Name(s, vt, j) < s.g.lpages && Map(s, l) == Vpn(s.g, vt, j) && !Moved(s, vt, j, l)
      && BlockOf(s.g, Map(s, l)) == vt && PageOf(s.g, Map(s, l)) == j
  {
    VpnParts(s.g, vt, j);
    assert Placed(s, t, vt, j, k, Entry(t.g, t.list, j));
  }

  lemma CopyMovesSelf(s: State, t: State, u: State, vt: nat, j: nat, k: nat, l: nat)
    requires Shape(s) && 1 <= s.gc && k < s.g.pages && u.g == s.g
    requires Copied(s, t, u, vt, j, k, l)
    requires Map(s, l) != 0 && BlockOf(s.g, Map(s, l)) == vt && PageOf(s.g, Map(s, l)) == j
    ensures Moved(s, vt, j + 1, l) && MovedTo(s, u, k + 1, l)
  {
    VpnParts(s.g, s.gc, k);
    MulAtLeast(s.gc, s.g.pages);
  }

  lemma CopyMovesMap(s: State, t: State, u: State, vt: nat, j: nat, k: nat, l: nat, j': nat, k': nat)
    requires MapOk(s) && Shape(s) && 1 <= s.gc && j < LastPage(s.g) && vt != s.gc && j' == j + 1 && k' == k + 1
    requires Copying(s, t, vt, j, k) && Copied(s, t, u, vt, j, k, l) && l == Name(s, vt, j)
    requires Map(s, l) != 0 && BlockOf(s.g, Map(s, l)) == vt && PageOf(s.g, Map(s, l)) == j
    ensures forall m: nat | m < s.g.lpages :: Placed(s, u, vt, j', k', m)
  {
    forall m: nat | m < s.g.lpages ensures Placed(s, u, vt, j', k', m) {
      if m == l {
        CopyMovesSelf(s, t, u, vt, j, k, l);
      } else {
        CopyMovesLpn(s, t, u, vt, j, k, l, m);
      }
    }
  }

  lemma MovingMapped(s: State, vt: nat, j: nat, l: nat)
    requires Shape(s) && l < s.g.lpages && Map(s, l) == Vpn(s.g, vt, j) && 1 <= vt
    ensures Map(s, l) != 0
  {
    MulAtLeast(vt, s.g.pages);
  }

  /** A source page that holds a newest copy is copied to the next page of the new block. */
  lemma CopyMoves(s: State, t: State, u: State, vt: nat, j: nat, k: nat)
    requires CanCollect(s, vt) && Copying(s, t, vt, j, k) && j < LastPage(s.g)
    requires Map(t, Entry(t.g, t.list, j)) == Vpn(s.g, vt, j) && Copied(s, t, u, vt, j, k, Entry(t.g, t.list, j))
    ensures Copying(s, u, vt, j + 1, k + 1)
  {
    MovingLpn(s, t, vt, j, k);
    MovingMapped(s, vt, j, Entry(t.g, t.list, j));
    CopyMovesNames(s, t, u, vt, j, k);
    CopyMovesMap(s, t, u, vt, j, k, Entry(t.g, t.list, j), j + 1, k + 1);
  }

  /** The same, said of the updates that the copy makes. */
  lemma UpdatesCopy(s: State, t: State, u: State, vt: nat, j: nat, k: nat, l: nat)
    requires CanCollect(s, vt) && Copying(s, t, vt, j, k) && j < LastPage(s.g)
    requires l == Entry(t.g, t.list, j) && l < s.g.lpages && Map(t, l) == Vpn(s.g, vt, j)
    requires u == t.(flash := t.flash[s.gc := t.flash[s.gc][k := t.flash[vt][j]]],
                     pmap := t.pmap[l := Vpn(s.g, s.gc, k)], list := t.list[k := l])
    ensures Copying(s, u, vt, j + 1, k + 1)
  {
    CopiedByUpdates(s, t, u, vt, j, k, l);
    CopyMoves(s, t, u, vt, j, k);
  }

  // ---- after the loop -----------------------------------------------------------------------

  /** Erasing the victim and making it the reserve: the end of garbage_collection. */
  ghost predicate Swapped(s: State, t: State, u: State, vt: nat) {
    && u.g == s.g && Shape(u) && u.gc == vt && u.free == s.free + 1
    && u.pmap == t.pmap && u.list == t.list
    && (forall b: nat :: Vc(u, b) == if b == vt then VC_MAX else if b == s.gc then Vc(s, vt) else Vc(s, b))
    && (forall b: nat, p: nat :: At(u, b, p) == if b == vt then Erased else At(t, b, p))
  }

  /** The erase and the updates of the counts make that state. */
  lemma SwappedByUpdates(s: State, t: State, u: State, vt: nat)
    requires Shape(s) && Shape(t) && t.g == s.g && t.vc == s.vc && t.gc == s.gc && t.free == s.free
    requires vt < s.g.blocks && s.gc < s.g.blocks && vt != s.gc
    requires u == t.(flash := t.flash[vt := seq(s.g.pages, _ => Erased)],
                     vc := t.vc[vt := VC_MAX][s.gc := s.vc[vt]], gc := vt, free := s.free + 1)
    ensures Swapped(s, t, u, vt)
  {
  }

  lemma CopySetLpn(s: State, t: State, vt: nat, k: nat, l: nat)
    requires CanCollect(s, vt) && Copying(s, t, vt, LastPage(s.g), k) && l < s.g.lpages
    ensures Map(t, l) != 0 && BlockOf(s.g, Map(t, l)) == s.gc <==> Map(s, l) != 0 && BlockOf(s.g, Map(s, l)) == vt
  {
    assert Placed(s, t, vt, LastPage(s.g), k, l);
    if Map(s, l) != 0 {
      assert Mapped(s, l);
    }
  }

  /** Every lpn of the victim is in the copy now, and nothing else is. */
  lemma CopySet(s: State, t: State, vt: nat, k: nat)
    requires CanCollect(s, vt) && Copying(s, t, vt, LastPage(s.g), k)
    ensures LpnsIn(t, s.gc) == LpnsIn(s, vt)
  {
    forall l: nat | l < s.g.lpages ensures l in LpnsIn(t, s.gc) <==> l in LpnsIn(s, vt) {
      CopySetLpn(s, t, vt, k, l);
    }
  }

  /** The loop copied exactly as many pages as the victim's count says. */
  lemma CopyCount(s: State, t: State, vt: nat, k: nat)
    requires CanCollect(s, vt) && Copying(s, t, vt, LastPage(s.g), k)
    ensures k == Vc(s, vt)
  {
    CopySet(s, t, vt, k);
    var names := seq(k, i requires 0 <= i < k => Entry(t.g, t.list, i));
    forall i: nat | i < k
      ensures Map(t, names[i]) == Vpn(s.g, s.gc, i) && BlockOf(s.g, Vpn(s.g, s.gc, i)) == s.gc
      ensures PageOf(s.g, Vpn(s.g, s.gc, i)) == i && names[i] < s.g.lpages
    {
      assert InCopy(s, t, i);
      VpnParts(s.g, s.gc, i);
    }
    forall l <- LpnsIn(s, vt) ensures l in Elems(names) {
      assert Mapped(s, l);
      assert Placed(s, t, vt, LastPage(s.g), k, l);
      assert names[PageOf(s.g, Map(t, l))] == l;
    }
    CopyNames(s, t, vt, k, names);
  }

  lemma CopyNames(s: State, t: State, vt: nat, k: nat, names: seq<nat>)
    requires LpnsIn(t, s.gc) == LpnsIn(s, vt) <= Elems(names) && |names| == k && |t.pmap| == s.g.lpages && t.g == s.g
    requires s.gc * s.g.pages != 0 && Vc(s, vt) == |LpnsIn(s, vt)|
    requires forall i: nat | i < k :: names[i] < s.g.lpages && Map(t, names[i]) == Vpn(s.g, s.gc, i)
    requires forall i: nat | i < k :: BlockOf(s.g, Vpn(s.g, s.gc, i)) == s.gc && PageOf(s.g, Vpn(s.g, s.gc, i)) == i
    ensures k == Vc(s, vt)
  {
    assert Elems(names) == LpnsIn(s, vt);
    assert forall i, j | 0 <= i < j < k :: names[i] != names[j];
    ElemsSize(names);
  }

  lemma CollectedLpn(s: State, t: State, u: State, vt: nat, k: nat, l: nat)
    requires CanCollect(s, vt) && Copying(s, t, vt, LastPage(s.g), k) && Swapped(s, t, u, vt)
    requires l < s.g.lpages && Map(s, l) != 0
    ensures Mapped(u, l) && Content(u, l) == Content(s, l) && Map(u, l) != 0
  {
    assert Mapped(s, l);
    assert Placed(s, t, vt, LastPage(s.g), k, l);
  }

  lemma CollectedReads(s: State, t: State, u: State, vt: nat, k: nat)
    requires CanCollect(s, vt) && Copying(s, t, vt, LastPage(s.g), k) && Swapped(s, t, u, vt)
    ensures forall b: nat :: IsData(u, b) == (b == s.gc || (b != vt && IsData(s, b)))
    ensures forall b: nat :: IsClosed(u, b) == (b != vt && b != s.gc && IsClosed(s, b))
    ensures forall b: nat, p: nat | b != vt && b != s.gc :: At(u, b, p) == At(s, b, p)
    ensures forall b: nat, p: nat | b != vt && b != s.gc && IsClosed(s, b) :: Name(u, b, p) == Name(s, b, p)
  {
    assert k < s.g.pages && At(t, s.gc, LastPage(s.g)) == Erased;
  }

  lemma CollectedSets(s: State, u: State, vt: nat)
    requires Shape(s) && Shape(u) && u.g == s.g && IsData(s, vt) && IsClosed(s, vt) && s.gc < s.g.blocks
    requires forall b: nat :: IsData(u, b) == (b == s.gc || (b != vt && IsData(s, b)))
    requires forall b: nat :: IsClosed(u, b) == (b != vt && b != s.gc && IsClosed(s, b))
    requires !IsData(s, s.gc)
    ensures |DataBlocks(u)| == |DataBlocks(s)| && |ClosedBlocks(u)| == |ClosedBlocks(s)| - 1
  {
    assert DataBlocks(u) == DataBlocks(s) - {vt} + {s.gc};
    assert ClosedBlocks(u) == ClosedBlocks(s) - {vt};
  }

  lemma CollectedBlocks(s: State, t: State, u: State, vt: nat, k: nat)
    requires CanCollect(s, vt) && Copying(s, t, vt, LastPage(s.g), k) && Swapped(s, t, u, vt)
    ensures BlocksOk(u) && FreeOk(u)
  {
    CollectedReads(s, t, u, vt, k);
    CollectedSets(s, u, vt);
  }

  lemma CollectedLists(s: State, t: State, u: State, vt: nat, k: nat)
    requires CanCollect(s, vt) && Copying(s, t, vt, LastPage(s.g), k) && Swapped(s, t, u, vt)
    ensures ListsOk(u)
  {
    CollectedReads(s, t, u, vt, k);
    forall b: nat, p: nat | IsData(u, b) && p < u.g.pages
      ensures Name(u, b, p) < u.g.lpages
    {
      assert IsData(s, b) || b == s.gc;
    }
  }

  lemma CollectedCounts(s: State, t: State, u: State, vt: nat, k: nat)
    requires CanCollect(s, vt) && Copying(s, t, vt, LastPage(s.g), k) && Swapped(s, t, u, vt)
    ensures CountsOk(u)
  {
    CopySet(s, t, vt, k);
    forall b: nat ensures LpnsIn(u, b) == LpnsIn(t, b) {}
    forall b: nat | b != vt && b != s.gc ensures LpnsIn(t, b) == LpnsIn(s, b) {
      forall l: nat | l < s.g.lpages ensures l in LpnsIn(t, b) <==> l in LpnsIn(s, b) {
        assert Placed(s, t, vt, LastPage(s.g), k, l);
      }
    }
    CollectedReads(s, t, u, vt, k);
  }

  lemma CollectedMap(s: State, t: State, u: State, vt: nat, k: nat)
    requires CanCollect(s, vt) && Copying(s, t, vt, LastPage(s.g), k) && Swapped(s, t, u, vt)
    ensures MapOk(u) && Disk(u) == Disk(s)
  {
    forall l: nat | l < s.g.lpages
      ensures Content(u, l) == Content(s, l)
      ensures Map(u, l) != 0 ==> Mapped(u, l)
    {
      if Map(s, l) != 0 {
        CollectedLpn(s, t, u, vt, k, l);
      } else {
        assert Placed(s, t, vt, LastPage(s.g), k, l);
      }
    }
    forall l: nat | l < s.g.lpages ensures Disk(u)[l] == Disk(s)[l] {}
  }

  /** Garbage collection keeps every logical page, and leaves a block that is ready for the next write. */
  lemma CollectionIsInvisible(s: State, t: State, u: State, vt: nat, k: nat)
    requires CanCollect(s, vt) && Copying(s, t, vt, LastPage(s.g), k) && Swapped(s, t, u, vt)
    ensures Ready(u, Vpn(s.g, s.gc, k)) && Disk(u) == Disk(s)
  {
    CopyCount(s, t, vt, k);
    CollectedMap(s, t, u, vt, k);
    CollectedCounts(s, t, u, vt, k);
    CollectedBlocks(s, t, u, vt, k);
    CollectedLists(s, t, u, vt, k);
    CollectedReads(s, t, u, vt, k);
    VpnParts(s.g, s.gc, k);
  }

  /** What garbage_collection does to s: a block with the fewest valid pages is the new reserve, and erased; the old
      reserve has its valid pages, no more, and is written on behind them; no other block of flash changes. */
  ghost predicate Collected(s: State, u: State, cur: nat) {
    && IsData(s, u.gc) && (forall b: nat | b < s.g.blocks :: Vc(s, u.gc) <= Vc(s, b))
    && cur == Vpn(s.g, s.gc, Vc(s, u.gc)) && u.free == s.free + 1 && ErasedFrom(u, u.gc, 0)
    && (forall b: nat :: Vc(u, b) == if b == u.gc then VC_MAX else if b == s.gc then Vc(s, u.gc) else Vc(s, b))
    && (forall b: nat, p: nat | b != u.gc && b != s.gc :: At(u, b, p) == At(s, b, p))
  }

  /** The same, said of the updates that end a collection. */
  lemma FinishIsInvisible(s: State, t: State, u: State, vt: nat, k: nat)
    requires CanCollect(s, vt) && Copying(s, t, vt, LastPage(s.g), k)
    requires u == t.(flash := t.flash[vt := seq(s.g.pages, _ => Erased)],
                     vc := t.vc[vt := VC_MAX][s.gc := s.vc[vt]], gc := vt, free := s.free + 1)
    requires forall b: nat | b < s.g.blocks :: Vc(s, vt) <= Vc(s, b)
    ensures Ready(u, Vpn(s.g, s.gc, k)) && Disk(u) == Disk(s) && Collected(s, u, Vpn(s.g, s.gc, k))
  {
    SwappedByUpdates(s, t, u, vt);
    CopyCount(s, t, vt, k);
    CollectionIsInvisible(s, t, u, vt, k);
  }
}
