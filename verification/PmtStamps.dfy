/** The time stamps of the PMT cache, and what happens when the clock reaches the end of its range. */
module PmtStamps {
  import opened Sets

  const EVICTED_STAMP: nat := 0xFFFF_FFFF
  const FIXED_STAMP: nat := 0xFFFF_FFFE
  const LOADING_STAMP: nat := 0xFFFF_FFFD
  const NULL_STAMP: nat := 0xFFFF_FFFC

  /** An ordinary stamp, as opposed to the four special values. */
  predicate IsNormal(t: nat) { t < NULL_STAMP }

  /** The distinct normal stamps in use. */
  ghost function NormalStamps(s: seq<nat>): set<nat> { set j | 0 <= j < |s| && IsNormal(s[j]) :: s[j] }

  /** How many distinct normal stamps are below v. */
  ghost function Rank(s: seq<nat>, v: nat): nat { |set w | w in NormalStamps(s) && w < v| }

  lemma RankGrows(s: seq<nat>, v: nat, w: nat)
    requires v < w && v in NormalStamps(s)
    ensures Rank(s, v) < Rank(s, w)
  {
    var low, high := set x | x in NormalStamps(s) && x < v, set x | x in NormalStamps(s) && x < w;
    assert low + {v} <= high;
    SubsetSize(low + {v}, high);
  }

  lemma SizeBelow(a: set<nat>, v: nat)
    requires forall x <- a :: x < v
    ensures |a| <= v
  {
    SubsetSize(a, Below(v));
  }

  lemma {:induction false} StampsAreFew(s: seq<nat>)
    ensures |NormalStamps(s)| <= |s|
  {
    if s == [] {
    } else {
      var rest := s[..|s| - 1];
      StampsAreFew(rest);
      var last := if IsNormal(s[|s| - 1]) then {s[|s| - 1]} else {};
      assert NormalStamps(s) == NormalStamps(rest) + last;
    }
  }

  /** t is s with the normal stamps replaced by their ranks, so that their order stays. */
  ghost predicate Renumbered(s: seq<nat>, t: seq<nat>) {
    && |t| == |s|
    && forall j | 0 <= j < |s| :: t[j] == if IsNormal(s[j]) then Rank(s, s[j]) else s[j]
  }

  /** Renumbering keeps the order of any two normal stamps, so the least recently used page stays the same one. */
  lemma RenumberingKeepsOrder(s: seq<nat>, t: seq<nat>, i: nat, j: nat)
    requires Renumbered(s, t) && i < |s| && j < |s| && IsNormal(s[i]) && IsNormal(s[j])
    ensures s[i] < s[j] <==> t[i] < t[j]
    ensures s[i] == s[j] <==> t[i] == t[j]
  {
    if s[i] < s[j] {
      RankGrows(s, s[i], s[j]);
    } else if s[j] < s[i] {
      RankGrows(s, s[j], s[i]);
    }
  }

  /** The part of the work done after i rounds: the i least stamps have their ranks, the others are as they were. */
  ghost predicate Renumbering(s: seq<nat>, t: seq<nat>, done: set<nat>, i: nat) {
    && |t| == |s| && |done| == i && done <= NormalStamps(s)
    && (forall v, w | v in done && w in NormalStamps(s) && w !in done :: v < w)
    && (forall j | 0 <= j < |s| :: t[j] == if s[j] in done then Rank(s, s[j]) else s[j])
  }

  lemma DoneRank(s: seq<nat>, done: set<nat>, i: nat, v: nat)
    requires |done| == i && done <= NormalStamps(s)
    requires (forall x, w | x in done && w in NormalStamps(s) && w !in done :: x < w)
    ensures v in done ==> Rank(s, v) < i
    ensures v in NormalStamps(s) && v !in done ==> i <= Rank(s, v) && i <= v
    ensures v in NormalStamps(s) && v !in done && (forall w | w in NormalStamps(s) && w !in done :: v <= w) ==>
      Rank(s, v) == i
  {
    var low := set w | w in NormalStamps(s) && w < v;
    if v in done {
      SubsetSize(low, done - {v});
    } else if v in NormalStamps(s) {
      SubsetSize(done, low);
      SizeBelow(done, v);
      if forall w | w in NormalStamps(s) && w !in done :: v <= w {
        assert low == done;
      }
    }
  }

  /** One round: the least stamp not yet done gets rank i. */
  lemma RoundDone(s: seq<nat>, t: seq<nat>, u: seq<nat>, done: set<nat>, i: nat, v: nat)
    requires Renumbering(s, t, done, i) && |u| == |s|
    requires v in NormalStamps(s) && v !in done && (forall w | w in NormalStamps(s) && w !in done :: v <= w)
    requires forall j | 0 <= j < |s| :: u[j] == if t[j] == v then i else t[j]
    ensures Renumbering(s, u, done + {v}, i + 1)
  {
    DoneRank(s, done, i, v);
    forall j | 0 <= j < |s| ensures u[j] == if s[j] in done + {v} then Rank(s, s[j]) else s[j] {
      DoneRank(s, done, i, s[j]);
    }
  }

  lemma AllDone(s: seq<nat>, t: seq<nat>, done: set<nat>, i: nat)
    requires Renumbering(s, t, done, i) && (NormalStamps(s) <= done || |s| <= i)
    ensures Renumbered(s, t) && forall j | 0 <= j < |s| && IsNormal(s[j]) :: t[j] < i
    ensures i <= |s|
  {
    StampsAreFew(s);
    SubsetSize(done, NormalStamps(s));
    if |s| <= i {
      assert NormalStamps(s) - done == {} by {
        assert NormalStamps(s) == done + (NormalStamps(s) - done);
      }
    }
    forall j | 0 <= j < |s| && IsNormal(s[j]) ensures s[j] in done && t[j] < i {
      assert s[j] in NormalStamps(s);
      DoneRank(s, done, i, s[j]);
    }
  }
}
