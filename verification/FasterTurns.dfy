/** When garbage collection of the random log area succeeds: it depends on the second-chance bits, on what the victim
    blocks hold, and on the room that is left in the isolation area. */
module FasterTurns {
  import opened FasterState
  import opened FasterIsol
  import opened FasterGc

  /** The random log block that comes after that of page cur: the next victim. */
  function VictimOf(g: Geometry, cur: Pg): nat { if cur.b + 1 < g.used then cur.b + 1 else 1 }

  /** The data pages whose newest copy is in log block b. */
  function ValidIn(st: State, b: nat): set<Pg> { set d | d in st.hash && st.hash[d].b == b }

  /** Those of them that have had their second chance. */
  function ColdIn(st: State, b: nat): set<Pg> { set d | d in st.hash && st.hash[d].b == b && st.hash[d] in st.sc }

  /** Every page of the block is valid and none has had its second chance: the block is passed over. */
  predicate IsPassedOver(g: Geometry, st: State, b: nat) { |ValidIn(st, b)| == g.pages - 1 && ColdIn(st, b) == {} }

  function PagesOf(g: Geometry, b: nat): set<Pg> { set o: nat | o < g.pages :: Pg(b, o) }

  /** All its pages get their second chance, and the block after it is the next victim. */
  function PassedOver(g: Geometry, st: State, b: nat): State {
    var next := VictimOf(g, Pg(b, 0));
    st.(sc := st.sc + PagesOf(g, b), cur := Pg(if next == 0 then 0 else next - 1, Last(g)))
  }

  /** The pages that are migrated to the isolation area if block b is collected. */
  function Migrants(g: Geometry, st: State, b: nat): nat {
    if |ValidIn(st, b)| < g.pages / 2 then 0 else |ColdIn(st, b)|
  }

  /** The search for a victim that is not passed over ends at one whose cold pages have room in the isolation area. */
  ghost predicate CanFree(g: Geometry, st: State)
    decreases |Unmarked(g, st.sc)|
  {
    var b := VictimOf(g, st.cur);
    if IsPassedOver(g, st, b) then
      b in Unmarked(g, st.sc)
          && (MarkingIsProgress(g, st.sc, st.sc + PagesOf(g, b), b); CanFree(g, PassedOver(g, st, b)))
    else IsolRoom(g, st, Migrants(g, st, b))
  }

  /** Nothing else plays a part. */
  ghost predicate SameTurns(g: Geometry, st: State, st': State) {
    && st'.hash == st.hash && st'.sc == st.sc && st'.cur == st.cur
    && forall m: nat :: IsolRoom(g, st', m) <==> IsolRoom(g, st, m)
  }

  lemma {:induction false} SameCanFree(g: Geometry, st: State, st': State)
    requires SameTurns(g, st, st')
    ensures CanFree(g, st') <==> CanFree(g, st)
    decreases |Unmarked(g, st.sc)|
  {
    var b := VictimOf(g, st.cur);
    if IsPassedOver(g, st, b) && b in Unmarked(g, st.sc) {
      MarkingIsProgress(g, st.sc, st.sc + PagesOf(g, b), b);
      forall m: nat ensures IsolRoom(g, PassedOver(g, st', b), m) <==> IsolRoom(g, PassedOver(g, st, b), m) {
        assert IsolRoom(g, PassedOver(g, st', b), m) <==> IsolRoom(g, st', m);
        assert IsolRoom(g, PassedOver(g, st, b), m) <==> IsolRoom(g, st, m);
      }
      SameCanFree(g, PassedOver(g, st, b), PassedOver(g, st', b));
    }
  }

  /** A round of garbage_collection that passes its victim over. */
  lemma PassingOver(g: Geometry, st: State, st': State)
    requires IsPassedOver(g, st, VictimOf(g, st.cur)) && VictimOf(g, st.cur) in Unmarked(g, st.sc)
    requires st' == PassedOver(g, st, VictimOf(g, st.cur)).(rwList := st'.rwList)
    ensures CanFree(g, st') <==> CanFree(g, st)
    ensures |Unmarked(g, st'.sc)| < |Unmarked(g, st.sc)|
  {
    var b := VictimOf(g, st.cur);
    MarkingIsProgress(g, st.sc, st.sc + PagesOf(g, b), b);
    SameCanFree(g, PassedOver(g, st, b), st');
  }

  // ---- the counts of garbage_collection -----------------------------------------------------------------------------

  ghost function ValidUpTo(st: State, b: nat, o: nat): set<Pg>
  {
    set d | d in st.hash && st.hash[d].b == b && st.hash[d].o < o
  }

  ghost function ColdUpTo(st: State, b: nat, o: nat): set<Pg> {
    set d | d in st.hash && st.hash[d].b == b && st.hash[d].o < o && st.hash[d] in st.sc
  }

  /** One more page is one more data page if its name is in the list, and none if not. */
  lemma UpToNext(g: Geometry, st: State, list: seq<Pg>, b: nat, o: nat)
    requires HashOk(g, st) && g.Valid() && Filtered(g, st, list, b, 0) && o < g.pages - 1
    ensures var more := if list[o] != NOWHERE then {list[o]} else {};
      ValidUpTo(st, b, o + 1) == ValidUpTo(st, b, o) + more && more !! ValidUpTo(st, b, o)
    ensures var more := if list[o] != NOWHERE && Pg(b, o) in st.sc then {list[o]} else {};
      ColdUpTo(st, b, o + 1) == ColdUpTo(st, b, o) + more && more !! ColdUpTo(st, b, o)
  {
    NowhereIsNoPage(g, st);
    forall d | d in st.hash && st.hash[d] == Pg(b, o) ensures d == list[o] != NOWHERE {
      assert FilteredAt(list, d, st.hash[d]);
    }
  }

  lemma {:induction false} CountsUpTo(g: Geometry, st: State, list: seq<Pg>, b: nat, o: nat)
    requires HashOk(g, st) && g.Valid() && Filtered(g, st, list, b, 0) && o < g.pages
    ensures ValidBefore(list, o) == |ValidUpTo(st, b, o)| && ChancedBefore(list, st.sc, b, o) == |ColdUpTo(st, b, o)|
  {
    if o == 0 {
      assert ValidUpTo(st, b, o) == {} && ColdUpTo(st, b, o) == {};
    } else {
      CountsUpTo(g, st, list, b, o - 1);
      UpToNext(g, st, list, b, o - 1);
    }
  }

  /** The loop over the list counts the data pages of the block. */
  lemma CountsAre(g: Geometry, st: State, list: seq<Pg>, b: nat)
    requires HashOk(g, st) && g.Valid() && Filtered(g, st, list, b, 0) && 0 < b
    ensures ValidBefore(list, g.pages - 1) == |ValidIn(st, b)|
    ensures ChancedBefore(list, st.sc, b, g.pages - 1) == |ColdIn(st, b)|
  {
    CountsUpTo(g, st, list, b, g.pages - 1);
    forall d | d in st.hash && st.hash[d].b == b ensures st.hash[d].o < g.pages - 1 {
      assert EntryOk(g, st, d, st.hash[d]);
    }
    assert ValidUpTo(st, b, g.pages - 1) == ValidIn(st, b) && ColdUpTo(st, b, g.pages - 1) == ColdIn(st, b);
  }

  // ---- the room in the isolation area during a collection -----------------------------------------------------------

  /** The isolation area is open for as many pages as it was. */
  ghost predicate SameRoom(g: Geometry, st1: State, st2: State) {
    (IsolOpen(g, st1) <==> IsolOpen(g, st2)) && forall m: nat :: IsolRoom(g, st2, m) <==> IsolRoom(g, st1, m)
  }

  /** Steps that leave the isolation area alone leave the room there. */
  lemma RoomStays(g: Geometry, st: State, st': State)
    requires IsolOk(g, st) && IsolDistinct(g, st) && g.Valid() && SameLogs(st, st') && st'.isolCur == st.isolCur
    requires st'.vt == st.vt && st'.isolFree == st.isolFree
    requires forall b: nat, p: nat | InIsolArea(g, b) ::
      CellAt(st'.flash, LogVbn(g, st, b), p) == CellAt(st.flash, LogVbn(g, st, b), p)
    ensures IsolOpen(g, st') <==> IsolOpen(g, st)
    ensures forall m: nat :: IsolRoom(g, st', m) <==> IsolRoom(g, st, m)
  {
    assert InIsolArea(g, g.logs + BlockAfter(g, st));
    assert LogVbn(g, st', g.logs + BlockAfter(g, st)) == LogVbn(g, st, g.logs + BlockAfter(g, st));
    if st.isolCur != NOWHERE {
      assert InIsolArea(g, g.logs + st.isolCur.b);
      assert LogVbn(g, st', g.logs + st.isolCur.b) == LogVbn(g, st, g.logs + st.isolCur.b);
    }
    forall b: nat, p: nat | InIsolArea(g, b)
      ensures CellAt(st'.flash, LogVbn(g, st', b), p) == CellAt(st.flash, LogVbn(g, st, b), p)
    {
      assert LogVbn(g, st', b) == LogVbn(g, st, b);
    }
    if IsolOpen(g, st) {
      RingStays(g, st, st');
    } else if IsolOpen(g, st') {
      RingStays(g, st', st);
    }
  }

  /** A page that gets its second chance does not go there. */
  lemma ChanceKeepsRoom(g: Geometry, st0: State, st: State, b: nat, t: nat, o: nat, k: nat, d: Pg, data: Data,
                        sc: set<Pg>)
    requires Inv(g, st0) && GcMid(g, st0, st, b, t, o, k) && t < g.blocks
    ensures var st' := SecondChance(g, st, b, t, k, d, data, sc);
      (IsolOpen(g, st') <==> IsolOpen(g, st)) && forall m: nat :: IsolRoom(g, st', m) <==> IsolRoom(g, st, m)
  {
    MidIsWritten(g, st0, st, b, t, o, k);
    MoveCells(g, st, t, k, data);
    RoomStays(g, st, SecondChance(g, st, b, t, k, d, data, sc));
  }

  lemma {:induction false} ChancesGrow(list: seq<Pg>, sc: set<Pg>, b: nat, o: nat, p: nat)
    requires o <= p <= |list|
    ensures ChancedBefore(list, sc, b, o) <= ChancedBefore(list, sc, b, p)
  {
    if o == p {
    } else {
      ChancesGrow(list, sc, b, o, p - 1);
    }
  }

  /** The cold pages of the victim b that the list names. */
  ghost function Cold(g: Geometry, st: State, b: nat): nat {
    if 0 < g.pages <= |st.rwList| then ChancedBefore(st.rwList, st.sc, b, g.pages - 1) else 0
  }

  /** A migration that began in st1 has dealt with o pages, k of which stay in the random log area. */
  ghost predicate Migrating(g: Geometry, st1: State, st: State, b: nat, o: nat, k: nat) {
    && |st1.rwList| == |st.rwList| == g.pages && o < g.pages && Cold(g, st1, b) < g.pages
    && ChancedBefore(st1.rwList, st1.sc, b, o) <= Cold(g, st1, b)
    && k + ChancedBefore(st1.rwList, st1.sc, b, o) == ValidBefore(st1.rwList, o)
    && (IsolRoom(g, st, Cold(g, st1, b) - ChancedBefore(st1.rwList, st1.sc, b, o)) <==>
         IsolRoom(g, st1, Cold(g, st1, b)))
    && forall p | o <= p < g.pages :: SameAhead(st1, st, b, p)
  }

  ghost predicate SameAhead(st1: State, st: State, b: nat, p: nat) {
    p < |st1.rwList| && p < |st.rwList| && st.rwList[p] == st1.rwList[p] && (Pg(b, p) in st.sc <==> Pg(b, p) in st1.sc)
  }

  lemma ColdAhead(g: Geometry, st1: State, st: State, b: nat, o: nat, k: nat)
    requires Migrating(g, st1, st, b, o, k) && o + 1 < g.pages
    ensures ChancedBefore(st1.rwList, st1.sc, b, o + 1) <= Cold(g, st1, b)
    ensures st.rwList[o] != NOWHERE && Pg(b, o) in st.sc ==>
      0 < Cold(g, st1, b) - ChancedBefore(st1.rwList, st1.sc, b, o)
  {
    ChancesGrow(st1.rwList, st1.sc, b, o + 1, g.pages - 1);
    assert SameAhead(st1, st, b, o);
  }

  /** What else a migration step does. */
  ghost predicate StepsOn(g: Geometry, st: State, st': State, b: nat, o: nat) {
    && |st'.rwList| == |st.rwList| == g.pages
    && forall p | o < p < g.pages :: st'.rwList[p] == st.rwList[p] && (Pg(b, p) in st'.sc <==> Pg(b, p) in st.sc)
  }

  /** The second-chance bit of page o has been cleared. */
  ghost predicate Cleared(g: Geometry, st1: State, was: State, st: State, b: nat, o: nat, k: nat) {
    && Migrating(g, st1, was, b, o, k) && st == was.(sc := was.sc - {Pg(b, o)})
    && forall m: nat :: IsolRoom(g, st, m) <==> IsolRoom(g, was, m)
  }

  lemma StepsAhead(g: Geometry, st1: State, st: State, st': State, b: nat, o: nat, k: nat)
    requires Migrating(g, st1, st, b, o, k) && StepsOn(g, st, st', b, o) && o + 1 < g.pages
    ensures forall p | o + 1 <= p < g.pages :: SameAhead(st1, st', b, p)
  {
    forall p | o + 1 <= p < g.pages ensures SameAhead(st1, st', b, p) {
      assert SameAhead(st1, st, b, p);
    }
  }

  lemma MigratedWarm(g: Geometry, st1: State, st: State, st': State, b: nat, o: nat, k: nat)
    requires Migrating(g, st1, st, b, o, k) && o + 1 < g.pages && StepsOn(g, st, st', b, o)
    requires st.rwList[o] == NOWHERE || Pg(b, o) !in st.sc
    requires forall m: nat :: IsolRoom(g, st', m) <==> IsolRoom(g, st, m)
    ensures Migrating(g, st1, st', b, o + 1, if st.rwList[o] == NOWHERE then k else k + 1)
  {
    assert SameAhead(st1, st, b, o);
    StepsAhead(g, st1, st, st', b, o, k);
  }

  lemma MigratedCold(g: Geometry, st1: State, was: State, st: State, st': State, b: nat, o: nat, k: nat)
    requires Cleared(g, st1, was, st, b, o, k) && o + 1 < g.pages && st'.sc == st.sc && st'.rwList == st.rwList
    requires was.rwList[o] != NOWHERE && Pg(b, o) in was.sc
    requires var m := Cold(g, st1, b) - ChancedBefore(st1.rwList, st1.sc, b, o);
      0 < m && (IsolRoom(g, st', m - 1) <==> IsolRoom(g, st, m))
    ensures Migrating(g, st1, st', b, o + 1, k)
  {
    ChancesGrow(st1.rwList, st1.sc, b, o + 1, g.pages - 1);
    assert SameAhead(st1, was, b, o);
    StepsAhead(g, st1, was, st', b, o, k);
  }

  /** The next page of the random log area can be assigned. */
  ghost predicate CanAssign(g: Geometry, st: State) { st.cur.o + 2 == g.pages && st.rwFree == 1 ==> CanFree(g, st) }
}
