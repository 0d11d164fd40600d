/** Formatting: what the tables look like before the first write, and why the scan for good blocks ends. */
module GreedyFormat {
  import opened Sets
  import opened GreedyState

  ghost predicate Good(g: Geometry, b: nat) { 2 <= b < g.blocks && b !in g.bad }

  /** The good blocks above v. */
  ghost function GoodAbove(g: Geometry, v: nat): set<nat> { set b: nat | b < g.blocks && Good(g, b) && v < b }

  lemma GoodAboveOne(g: Geometry)
    requires g.Valid()
    ensures |GoodAbove(g, 1)| == g.blocks - 2 - |g.bad|
  {
    var reserved := Below(2) + g.bad;
    ReservedSize(g);
    PartSize(reserved, Below(g.blocks));
    assert GoodAbove(g, 1) == Below(g.blocks) - reserved;
  }

  lemma ReservedSize(g: Geometry)
    requires g.Valid()
    ensures |Below(2) + g.bad| == 2 + |g.bad| && Below(2) + g.bad <= Below(g.blocks)
  {
    assert Below(2) !! g.bad && |Below(2)| == 2;
  }

  lemma PartSize(a: set<nat>, b: set<nat>)
    requires a <= b
    ensures |b - a| == |b| - |a|
  {
    assert b == a + (b - a);
  }

  /** Going up one block uses up a good block exactly when the block is good; while any are left there is a next. */
  lemma GoodAboveNext(g: Geometry, v: nat)
    requires 1 <= v
    ensures |GoodAbove(g, v)| == |GoodAbove(g, v + 1)| + (if Good(g, v + 1) then 1 else 0)
    ensures GoodAbove(g, v) != {} ==> v + 1 < g.blocks
  {
    if Good(g, v + 1) {
      assert GoodAbove(g, v) == GoodAbove(g, v + 1) + {v + 1};
    } else {
      assert GoodAbove(g, v) == GoodAbove(g, v + 1);
    }
  }

  /** The state after format: nothing mapped, everything above the reserve block gc good, erased and empty. */
  ghost predicate Formatted(s: State, cur: nat) {
    && Shape(s) && Good(s.g, s.gc) && s.g.meta <= s.gc && |GoodAbove(s.g, s.gc)| == s.g.Usable() - 1
    && (forall l: nat :: Map(s, l) == 0)
    && (forall b: nat :: Vc(s, b) == if b in GoodAbove(s.g, s.gc) then 0 else VC_MAX)
    && (forall b: nat, p: nat | Good(s.g, b) :: At(s, b, p) == Erased)
    && (forall p: nat | p < s.g.pages :: Entry(s.g, s.list, p) == 0)
    && s.free == s.g.Usable()
    && BlockOf(s.g, cur) in GoodAbove(s.g, s.gc) && PageOf(s.g, cur) == 0
    && (forall b: nat | s.gc < b < BlockOf(s.g, cur) :: !Good(s.g, b))
  }

  lemma FormattedTables(s: State, cur: nat)
    requires Formatted(s, cur)
    ensures MapOk(s) && CountsOk(s) && BlocksOk(s) && ListsOk(s) && FreeOk(s)
  {
    forall b: nat ensures LpnsIn(s, b) == {} {}
    assert DataBlocks(s) == GoodAbove(s.g, s.gc);
    assert ClosedBlocks(s) == {};
  }

  /** A freshly formatted bank satisfies the invariant, and reads as all ones everywhere. */
  lemma FormattedIsBlank(s: State, cur: nat)
    requires Formatted(s, cur)
    ensures Inv(s, cur)
    ensures forall l: nat | l < s.g.lpages :: Disk(s)[l] == Blank(s.g)
  {
    FormattedTables(s, cur);
  }

  /** vcount as format leaves it: above block v the good blocks are empty, everything else is off limits. */
  ghost predicate CountsAbove(g: Geometry, vc: seq<nat>, v: nat) {
    |vc| == g.blocks && forall b | 0 <= b < |vc| :: vc[b] == if v < b && Good(g, b) then 0 else VC_MAX
  }

  lemma FormattedFrom(s: State, first: nat, cur: nat)
    requires Shape(s) && CountsAbove(s.g, s.vc, s.gc) && Good(s.g, s.gc) && s.g.meta <= s.gc
    requires |GoodAbove(s.g, s.gc)| == s.g.Usable() - 1 && s.free == s.g.Usable()
    requires s.gc < first && Good(s.g, first) && (forall b: nat | s.gc < b < first :: !Good(s.g, b))
    requires cur == Vpn(s.g, first, 0)
    requires forall b: nat, p: nat | Good(s.g, b) && p < s.g.pages :: s.flash[b][p] == Erased
    requires (forall l | 0 <= l < |s.pmap| :: s.pmap[l] == 0) && (forall p | 0 <= p < |s.list| :: s.list[p] == 0)
    ensures Formatted(s, cur)
  {
    VpnParts(s.g, first, 0);
    forall b: nat, p: nat | Good(s.g, b) ensures At(s, b, p) == Erased {
      if p < s.g.pages {
        assert s.flash[b][p] == Erased;
      }
    }
  }
}
