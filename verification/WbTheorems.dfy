/** What one user's push means for the pulls that follow it. */
module WbTheorems {
  import opened Sectors
  import opened WbState
  import opened WbPush
  import opened WbPull

  /** A user reads back what he has pushed. */
  lemma PullReturnsPush(g: Geometry, st0: State, st: State, l: nat, m: Mask, u: nat, from: seq<Sector>, target: Mask,
                        to: seq<Sector>, valid: Mask, r: seq<Sector>)
    requires Pushed(g, st0, st, l, m, u, from) && Pulled(g, st, l, target, u, to, valid, r)
    ensures forall s | s in target && s in m :: s in valid && r[s] == from[s]
  {
    forall s | s in target && s in m ensures s in valid && r[s] == from[s] {
      assert PushedAt(g, st0, st, l, m, u, from, l, s);
    }
  }

  /** Another user gets zeros in the whole of the sub-pages that have been written. */
  lemma OthersPullZeros(g: Geometry, st0: State, st: State, l: nat, m: Mask, u: nat, from: seq<Sector>, w: nat,
                        target: Mask, to: seq<Sector>, valid: Mask, r: seq<Sector>)
    requires Pushed(g, st0, st, l, m, u, from) && Pulled(g, st, l, target, w, to, valid, r) && w != u
    ensures forall s | s in target && s in Aligned(g, m) :: s in valid && r[s] == 0
  {
    forall s | s in target && s in Aligned(g, m) ensures s in valid && r[s] == 0 {
      var t :| t in m && SubOf(g.per, t) == SubOf(g.per, s);
      assert PushedAt(g, st0, st, l, m, u, from, l, t) && PushedAt(g, st0, st, l, m, u, from, l, s);
      assert Foreign(g, st, l, w, s);
    }
  }

  /** A pull of another page, or by a user who shares no sub-page with the push, is not affected. */
  lemma PushLeavesOthers(g: Geometry, st0: State, st: State, l: nat, m: Mask, u: nat, from: seq<Sector>, l': nat,
                         s: nat)
    requires Pushed(g, st0, st, l, m, u, from) && (l' != l || s !in Aligned(g, m))
    ensures View(g, st, l', s) == View(g, st0, l', s)
  {
    AlignedHolds(g, m);
    assert PushedAt(g, st0, st, l, m, u, from, l', s);
  }
}
