/** Where pages go: which of them a garbage collection of the random log area keeps there and which it sends to the
    isolation area, and which of them a full merge takes back to their data blocks. */
module FasterChances {
  import opened FasterState
  import opened FasterIsol
  import opened FasterGc
  import opened FasterTurns
  import opened FasterSteps
  import opened FasterAfter

  /** All pages of block b are valid, and none has had its second chance. */
  predicate AllWarm(g: Geometry, st: State, b: nat) {
    |ValidIn(st, b)| == g.pages - 1 && forall d | d in st.hash && st.hash[d].b == b :: st.hash[d] !in st.sc
  }

  /** Where page d goes when log block b is collected. It stays in the block, and has had its second chance then, if the
      block has few valid pages, or if it has not had it before; otherwise it goes to the isolation area. */
  ghost predicate Sorted(g: Geometry, st: State, r: State, b: nat, d: Pg)
    requires d in st.hash && d in r.hash
  {
    if st.hash[d].b != b then r.hash[d] == st.hash[d]
    else if AllWarm(g, st, b) then r.hash[d] == st.hash[d] && r.hash[d] in r.sc
    else if |ValidIn(st, b)| < g.pages / 2 || st.hash[d] !in st.sc then r.hash[d].b == b && r.hash[d] in r.sc
    else r.hash[d].b >= g.logs
  }

  ghost predicate Sorts(g: Geometry, st: State, r: State, b: nat) {
    r.hash.Keys == st.hash.Keys && forall d | d in st.hash :: Sorted(g, st, r, b, d)
  }

  // ---- the loops ----------------------------------------------------------------------------------------------------

  /** Where page d is when the first o pages of block b have been dealt with. */
  predicate DealtWith(g: Geometry, st: State, m: Mid, few: bool, b: nat, o: nat, d: Pg)
    requires d in st.hash && d in m.st.hash
  {
    var e, f := st.hash[d], m.st.hash[d];
    if e.b != b || e.o >= o then f == e
    else if few || e !in st.sc then f.b == b && f.o < m.k
    else f.b >= g.logs
  }

  /** The first o pages of block b have been dealt with; list has the names of its valid pages. */
  ghost predicate Dealing(g: Geometry, st: State, list: seq<Pg>, m: Mid, few: bool, b: nat, o: nat) {
    && |m.st.rwList| == |m.st.isolList| == |list| == g.pages && m.k <= o < g.pages
    && (forall p | o <= p < g.pages - 1 :: m.st.rwList[p] == list[p])
    && (forall j: nat | j < m.k :: Pg(b, j) in m.st.sc)
    && (!few ==> forall p: nat | o <= p :: Pg(b, p) in m.st.sc <==> Pg(b, p) in st.sc)
    && m.st.hash.Keys == st.hash.Keys && forall d | d in st.hash :: DealtWith(g, st, m, few, b, o, d)
  }

  /** The page at place o is the one that is named there. */
  lemma OnlyNamed(g: Geometry, st: State, list: seq<Pg>, b: nat, o: nat)
    requires Filtered(g, st, list, b, 0) && o < g.pages - 1
    ensures list[o] != NOWHERE ==> list[o] in st.hash && st.hash[list[o]] == Pg(b, o)
    ensures forall d | d in st.hash && d != list[o] :: st.hash[d] != Pg(b, o)
  {
    forall d | d in st.hash && st.hash[d] == Pg(b, o) ensures d == list[o] {
      assert FilteredAt(list, d, st.hash[d]);
    }
  }

  lemma SkipDeals(g: Geometry, st: State, list: seq<Pg>, m: Mid, few: bool, b: nat, o: nat, m': Mid)
    requires Dealing(g, st, list, m, few, b, o) && Filtered(g, st, list, b, 0) && o + 1 < g.pages
    requires list[o] == NOWHERE && NOWHERE !in st.hash && m' == Mid(m.st.(sc := m'.st.sc), m.k)
    requires m'.st.sc == m.st.sc || m'.st.sc == m.st.sc - {Pg(b, o)}
    ensures Dealing(g, st, list, m', few, b, o + 1)
  {
    OnlyNamed(g, st, list, b, o);
    forall d | d in st.hash ensures DealtWith(g, st, m', few, b, o + 1, d) {
      assert DealtWith(g, st, m, few, b, o, d);
    }
  }

  lemma ChanceDeals(g: Geometry, st: State, list: seq<Pg>, m: Mid, few: bool, b: nat, t: nat, o: nat, mid: Mid)
    requires Dealing(g, st, list, m, few, b, o) && Filtered(g, st, list, b, 0) && o + 1 < g.pages
    requires list[o] != NOWHERE && (few || Pg(b, o) !in st.sc) && mid == Mid(m.st.(sc := mid.st.sc), m.k)
    requires mid.st.sc == m.st.sc || mid.st.sc == m.st.sc - {Pg(b, o)}
    ensures Dealing(g, st, list, Chanced(g, mid, b, t, o), few, b, o + 1)
  {
    OnlyNamed(g, st, list, b, o);
    var r := Chanced(g, mid, b, t, o);
    forall d | d in st.hash ensures DealtWith(g, st, r, few, b, o + 1, d) {
      assert DealtWith(g, st, m, few, b, o, d);
    }
  }

  lemma IsolationDeals(g: Geometry, st: State, list: seq<Pg>, m: Mid, b: nat, o: nat, mid: State)
    requires Dealing(g, st, list, m, false, b, o) && Filtered(g, st, list, b, 0) && o + 1 < g.pages
    requires list[o] != NOWHERE && Pg(b, o) in st.sc && mid == m.st.(sc := m.st.sc - {Pg(b, o)})
    ensures Dealing(g, st, list, Mid(Isolated(g, mid, b, o), m.k), false, b, o + 1)
  {
    OnlyNamed(g, st, list, b, o);
    var r := Mid(Isolated(g, mid, b, o), m.k);
    forall d | d in st.hash ensures DealtWith(g, st, r, false, b, o + 1, d) {
      assert DealtWith(g, st, m, false, b, o, d);
    }
  }

  lemma {:induction false} CompactionDeals(g: Geometry, st: State, list: seq<Pg>, st1: State, b: nat, t: nat, o: nat)
    requires Dealing(g, st, list, Mid(st1, 0), true, b, 0) && Filtered(g, st, list, b, 0) && o < g.pages
    requires NOWHERE !in st.hash
    ensures Dealing(g, st, list, Compacted(g, st1, b, t, o), true, b, o)
  {
    if o == 0 {
    } else {
      CompactionDeals(g, st, list, st1, b, t, o - 1);
      var m := Compacted(g, st1, b, t, o - 1);
      if list[o - 1] == NOWHERE {
        SkipDeals(g, st, list, m, true, b, o - 1, m);
      } else {
        ChanceDeals(g, st, list, m, true, b, t, o - 1, m);
      }
    }
  }

  lemma {:induction false} MigrationDeals(g: Geometry, st: State, list: seq<Pg>, st1: State, b: nat, t: nat, o: nat)
    requires Dealing(g, st, list, Mid(st1, 0), false, b, 0) && Filtered(g, st, list, b, 0) && o < g.pages
    requires NOWHERE !in st.hash
    ensures Dealing(g, st, list, Migrated(g, st1, b, t, o), false, b, o)
  {
    if o == 0 {
    } else {
      MigrationDeals(g, st, list, st1, b, t, o - 1);
      StepDeals(g, st, list, Migrated(g, st1, b, t, o - 1), b, t, o - 1, o, Migrated(g, st1, b, t, o));
    }
  }

  lemma StepDeals(g: Geometry, st: State, list: seq<Pg>, m: Mid, b: nat, t: nat, o: nat, next: nat,
                  r: Mid)
    requires Dealing(g, st, list, m, false, b, o) && Filtered(g, st, list, b, 0) && o + 1 < g.pages
    requires NOWHERE !in st.hash && r == MigrateStep(g, m, b, t, o) && next == o + 1
    ensures Dealing(g, st, list, r, false, b, next)
  {
    var mid := m.st.(sc := m.st.sc - {Pg(b, o)});
    if list[o] == NOWHERE {
      SkipDeals(g, st, list, m, false, b, o, Mid(mid, m.k));
    } else if Pg(b, o) in m.st.sc {
      IsolationDeals(g, st, list, m, b, o, mid);
    } else {
      ChanceDeals(g, st, list, m, false, b, t, o, Mid(mid, m.k));
    }
  }

  // ---- a whole collection -------------------------------------------------------------------------------------------

  lemma NamesAreSifted(g: Geometry, st: State, b: nat)
    requires Inv(g, st) && st.rwFree == 0 && 0 < b < g.used
    ensures Filtered(g, st, SiftedNames(g, st, b), b, 0) && NOWHERE !in st.hash
  {
    var list := SiftedNames(g, st, b);
    NowhereIsNoPage(g, st);
    forall d | d in st.hash && st.hash[d].b == b ensures FilteredAt(list, d, st.hash[d]) {
      NamesLead(g, st, b, d);
    }
  }

  /** The collection of block b begins in st1, with the names of its valid pages. */
  ghost predicate Begins(g: Geometry, st: State, list: seq<Pg>, st1: State, b: nat) {
    && Shape(g, st) && Filtered(g, st, list, b, 0) && NOWHERE !in st.hash && 0 < ValidBefore(list, g.pages - 1)
    && st1 == st.(rwList := list, free := st.free[1..])
  }

  lemma FewDeal(g: Geometry, st: State, list: seq<Pg>, st1: State, b: nat, t: nat)
    requires Begins(g, st, list, st1, b) && ValidBefore(list, g.pages - 1) < g.pages / 2
    ensures Dealing(g, st, list, Emptied(g, st1, b, t), true, b, g.pages - 1)
  {
    EmptiedIs(g, st1, b, t, ValidBefore(list, g.pages - 1));
    CompactionDeals(g, st, list, st1.(sc := st1.sc - PagesOf(g, b)), b, t, g.pages - 1);
  }

  lemma ManyDeal(g: Geometry, st: State, list: seq<Pg>, st1: State, b: nat, t: nat)
    requires Begins(g, st, list, st1, b) && ValidBefore(list, g.pages - 1) >= g.pages / 2
    ensures Dealing(g, st, list, Emptied(g, st1, b, t), false, b, g.pages - 1)
  {
    EmptiedIs(g, st1, b, t, ValidBefore(list, g.pages - 1));
    MigrationDeals(g, st, list, st1, b, t, g.pages - 1);
  }

  lemma RecyclingSorts(g: Geometry, st: State, b: nat)
    requires Inv(g, st) && st.rwFree == 0 && 0 < b < g.used && !AllWarm(g, st, b)
    ensures Sorts(g, st, Recycled(g, st.(rwList := SiftedNames(g, st, b)), b), b)
  {
    NamesAreSifted(g, st, b);
    var list, few := SiftedNames(g, st, b), |ValidIn(st, b)| < g.pages / 2;
    CountsAre(g, st, list, b);
    if ValidIn(st, b) == {} {
      assert forall d | d in st.hash :: d !in ValidIn(st, b);
    } else {
      var st1 := st.(rwList := list, free := st.free[1..]);
      if few {
        FewDeal(g, st, list, st1, b, st.free[0]);
      } else {
        ManyDeal(g, st, list, st1, b, st.free[0]);
      }
      SortedByDeal(g, st, list, Emptied(g, st1, b, st.free[0]), few, b);
    }
  }

  lemma SortedByDeal(g: Geometry, st: State, list: seq<Pg>, m: Mid, few: bool, b: nat)
    requires Inv(g, st) && st.rwFree == 0 && 0 < b < g.used && !AllWarm(g, st, b)
    requires Dealing(g, st, list, m, few, b, g.pages - 1) && (few <==> |ValidIn(st, b)| < g.pages / 2)
    ensures Sorts(g, st, m.st, b)
  {
    forall d | d in st.hash ensures Sorted(g, st, m.st, b, d) {
      assert DealtWith(g, st, m, few, b, g.pages - 1, d);
      if st.hash[d].b == b {
        NamesLead(g, st, b, d);
        assert m.st.hash[d] == Pg(m.st.hash[d].b, m.st.hash[d].o);
      }
    }
  }

  lemma WarmIsPassedOver(g: Geometry, st: State, b: nat)
    ensures AllWarm(g, st, b) <==> IsPassedOver(g, st, b)
  {
    if AllWarm(g, st, b) {
      assert ColdIn(st, b) == {};
    }
    forall d | d in st.hash && st.hash[d].b == b && st.hash[d] in st.sc ensures ColdIn(st, b) != {} {
      assert d in ColdIn(st, b);
    }
  }

  /** A collection of the random log area. */
  lemma CollectionSorts(g: Geometry, st: State)
    requires Inv(g, st) && st.rwFree == 0
    ensures Sorts(g, st, Collected(g, st), VictimOf(g, st.cur))
  {
    var b := VictimOf(g, st.cur);
    WarmIsPassedOver(g, st, b);
    if AllWarm(g, st, b) {
      forall d | d in st.hash && st.hash[d].b == b ensures st.hash[d] in PagesOf(g, b) {
        NamesLead(g, st, b, d);
      }
    } else {
      RecyclingSorts(g, st, b);
    }
  }

  /** A page that is valid in two collections of its block, each of which finds at least half of the block valid and is
      not the first of a block all of whose pages are warm, is in the isolation area after the second one, if it has not
      been written in between. */
  lemma SecondIsLast(g: Geometry, st: State, now: State, d: Pg)
    requires Inv(g, st) && Inv(g, now) && st.rwFree == 0 && now.rwFree == 0 && d in st.hash && d in now.hash
    requires var b, r := VictimOf(g, st.cur), Collected(g, st);
      && st.hash[d].b == b == VictimOf(g, now.cur) && d in r.hash && r.hash[d].b == b
      && now.hash[d] == r.hash[d] && (now.hash[d] in now.sc <==> now.hash[d] in r.sc)
      && |ValidIn(now, b)| >= g.pages / 2
    ensures d in Collected(g, now).hash && Collected(g, now).hash[d].b >= g.logs
  {
    CollectionSorts(g, st);
    CollectionSorts(g, now);
    assert Sorted(g, st, Collected(g, st), VictimOf(g, st.cur), d);
    assert Sorted(g, now, Collected(g, now), VictimOf(g, now.cur), d);
  }

  // ---- a full merge -------------------------------------------------------------------------------------------------

  /** In the isolation block that comes after the victim page, or goes on behind it, page d is the first valid one. */
  ghost predicate IsNextVictim(g: Geometry, st: State, d: Pg) {
    var from := NextIsol(g, st.vt);
    && d in st.hash && st.hash[d].b == g.logs + from.b && from.o <= st.hash[d].o
    && forall c | c in st.hash && st.hash[c].b == g.logs + from.b :: !(from.o <= st.hash[c].o < st.hash[d].o)
  }

  lemma {:induction false} FirstIs(g: Geometry, st: State, b: nat, from: nat, o: nat)
    requires from <= o < Last(g) && !Unused(g, st, Pg(b, o)) && forall p: nat | from <= p < o :: Unused(g, st, Pg(b, p))
    ensures FirstValid(g, st, b, from) == o
    decreases o - from
  {
    if from == o {
    } else {
      FirstIs(g, st, b, from + 1, o);
    }
  }

  lemma FoundIsVictim(g: Geometry, st: State, d: Pg)
    requires Inv(g, st) && CanMerge(g, st) && IsNextVictim(g, st, d)
    ensures Found(g, st) == Pg(NextIsol(g, st.vt).b, st.hash[d].o) && st.hash[d].o < Last(g)
    ensures Listed(VictimNames(g, st), st.hash[d].o, d) && d.b < g.datas && NextIsol(g, st.vt).b < g.isols
  {
    var from, o := NextIsol(g, st.vt), st.hash[d].o;
    NextIsAhead(g, st);
    assert EntryOk(g, st, d, st.hash[d]) && Ahead(g, from, VictimNames(g, st), d, st.hash[d]);
    assert st.hash[d] == Pg(g.logs + from.b, o);
    FirstIs(g, st, from.b, from.o, o);
  }

  /** A full merge stops after its partial merge. */
  predicate StopsShort(st: State, d: Pg) { d.b == st.swLbn && st.swNext <= d.o }

  /** After a full merge, page c is still in the log area. */
  predicate StaysInLog(st: State, d: Pg, c: Pg) {
    c in st.hash && (c.b == d.b ==> StopsShort(st, d) && c.o < st.swNext && st.hash[c].b != 0)
  }

  /** A full merge takes all pages of the data block of the next valid page out of the log area, wherever in it they
      are. If it stops after its partial merge, those stay that are before the next page of the sequential log block and
      have their newest copy elsewhere. The pages of other data blocks stay where they are. */
  lemma MergeTakes(g: Geometry, st: State, d: Pg)
    requires Inv(g, st) && CanMerge(g, st) && IsNextVictim(g, st, d)
    ensures forall c :: c in FullyMerged(g, st).hash <==> StaysInLog(st, d, c)
    ensures forall c | c in FullyMerged(g, st).hash :: FullyMerged(g, st).hash[c] == st.hash[c]
  {
    FoundIsVictim(g, st, d);
    forall c | c in st.hash ensures c.o < g.pages && d in st.hash {
      assert EntryOk(g, st, c, st.hash[c]);
    }
    var r := FullyMerged(g, st);
    if d.b != st.swLbn {
      assert r.hash == HashAfter(st, d.b, g.pages, 0);
    } else if StopsShort(st, d) {
      assert r.hash == HashAfter(st, d.b, g.pages, st.swNext);
    } else {
      assert r.hash == HashAfter(SwMerged(g, st), d.b, g.pages, 0);
    }
  }

  /** If there is no valid page left in the block, it is given back, and no page moves. */
  lemma MergeGivesBack(g: Geometry, st: State)
    requires Inv(g, st) && CanMerge(g, st) && forall d :: !IsNextVictim(g, st, d)
    ensures FullyMerged(g, st).hash == st.hash && FullyMerged(g, st).isolFree == st.isolFree + 1
  {
    var from, found := NextIsol(g, st.vt), Found(g, st);
    FoundIsNamed(g, st);
    if found.o < Last(g) {
      FirstIsUsed(g, st, from.b, from.o);
      var d :| d in st.hash && st.hash[d] == Pg(g.logs + from.b, found.o);
      AllBefore(g, st, from.b, from.o);
      forall c | c in st.hash && st.hash[c].b == g.logs + from.b ensures !(from.o <= st.hash[c].o < found.o) {
        var p := st.hash[c].o;
        assert st.hash[c] == Pg(g.logs + from.b, p);
        assert !Unused(g, st, Pg(from.b, p));
      }
      assert IsNextVictim(g, st, d);
    }
  }

  lemma {:induction false} AllBefore(g: Geometry, st: State, b: nat, o: nat)
    ensures forall p: nat | o <= p < FirstValid(g, st, b, o) && o <= Last(g) :: Unused(g, st, Pg(b, p))
    decreases Last(g) - o
  {
    if o >= Last(g) || !Unused(g, st, Pg(b, o)) {
    } else {
      AllBefore(g, st, b, o + 1);
    }
  }
}
