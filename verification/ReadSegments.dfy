/** The segments of a read: the sectors that the host wants, grouped by the flash page that holds them. */
module ReadSegments {
  import opened Sectors
  import opened WbState

  /** The sectors wanted from flash page vp. */
  datatype Segment = Segment(vp: nat, sectors: Mask)

  /** The sectors of the first n sub-pages that are wanted, and are at flash page vp. */
  ghost function WantedAt(g: Geometry, target: Mask, vps: seq<nat>, n: nat, vp: nat): Mask
    requires n <= |vps|
  {
    set s | s in target && SubOf(g.per, s) < n && vps[SubOf(g.per, s)] == vp
  }

  ghost predicate SegmentOk(g: Geometry, target: Mask, vps: seq<nat>, n: nat, seg: Segment)
    requires n <= |vps|
  {
    seg.sectors != {} && seg.sectors == WantedAt(g, target, vps, n, seg.vp)
  }

  /** Each flash page with wanted sectors has one segment, with all of them. */
  ghost predicate Grouped(g: Geometry, target: Mask, vps: seq<nat>, n: nat, segs: seq<Segment>) {
    && n <= |vps| && |segs| <= n
    && (forall i {:trigger segs[i]} | 0 <= i < |segs| :: SegmentOk(g, target, vps, n, segs[i]))
    && (forall i, j | 0 <= i < j < |segs| :: segs[i].vp != segs[j].vp)
    && (forall k: nat {:trigger vps[k]} | k < n && HasSector(g, target, k) ::
         exists i :: 0 <= i < |segs| && segs[i].vp == vps[k])
  }

  /** The sectors of sub-page n join the segment of its flash page. */
  lemma WantedNext(g: Geometry, target: Mask, vps: seq<nat>, n: nat, vp: nat)
    requires n < |vps| && InPage(g, target)
    ensures WantedAt(g, target, vps, n + 1, vp) ==
            WantedAt(g, target, vps, n, vp) + if vps[n] == vp then target * SubPage(g, n) else {}
  {
  }

  lemma NoneAdded(g: Geometry, target: Mask, vps: seq<nat>, n: nat, segs: seq<Segment>)
    requires n < |vps| && Grouped(g, target, vps, n, segs) && InPage(g, target) && target * SubPage(g, n) == {}
    ensures Grouped(g, target, vps, n + 1, segs)
  {
    forall i | 0 <= i < |segs| ensures SegmentOk(g, target, vps, n + 1, segs[i]) {
      assert SegmentOk(g, target, vps, n, segs[i]);
      WantedNext(g, target, vps, n, segs[i].vp);
    }
    SubPageHas(g, target, n);
    forall k: nat | k < n + 1 && HasSector(g, target, k) ensures exists j :: 0 <= j < |segs| && segs[j].vp == vps[k] {
      assert k < n;
      var j :| 0 <= j < |segs| && segs[j].vp == vps[k];
    }
  }

  function Added(segs: seq<Segment>, i: nat, vp: nat, sub: Mask): seq<Segment>
    requires i <= |segs|
  {
    if i == |segs| then segs + [Segment(vp, sub)] else segs[i := segs[i].(sectors := segs[i].sectors + sub)]
  }

  lemma OneAdded(g: Geometry, target: Mask, vps: seq<nat>, n: nat, segs: seq<Segment>, i: nat)
    requires n < |vps| && Grouped(g, target, vps, n, segs) && InPage(g, target) && target * SubPage(g, n) != {}
    requires i <= |segs| && if i < |segs| then segs[i].vp == vps[n] else forall j | 0 <= j < i :: segs[j].vp != vps[n]
    ensures Grouped(g, target, vps, n + 1, Added(segs, i, vps[n], target * SubPage(g, n)))
  {
    var now := Added(segs, i, vps[n], target * SubPage(g, n));
    assert i < |segs| ==> segs[i] == Segment(vps[n], segs[i].sectors);
    forall j | 0 <= j < |now| ensures SegmentOk(g, target, vps, n + 1, now[j]) {
      WantedNext(g, target, vps, n, now[j].vp);
      if j < |segs| {
        assert SegmentOk(g, target, vps, n, segs[j]);
      } else {
        NotWantedYet(g, target, vps, n, segs);
      }
    }
    forall k: nat | k < n + 1 && HasSector(g, target, k) ensures exists j :: 0 <= j < |now| && now[j].vp == vps[k] {
      if k < n {
        var j :| 0 <= j < |segs| && segs[j].vp == vps[k];
        assert now[j].vp == vps[k];
      } else {
        assert now[i].vp == vps[k];
      }
    }
  }

  /** A flash page without a segment has no sectors that are wanted yet. */
  lemma NotWantedYet(g: Geometry, target: Mask, vps: seq<nat>, n: nat, segs: seq<Segment>)
    requires n < |vps| && Grouped(g, target, vps, n, segs) && forall j | 0 <= j < |segs| :: segs[j].vp != vps[n]
    ensures WantedAt(g, target, vps, n, vps[n]) == {}
  {
    forall s | s in target && SubOf(g.per, s) < n ensures vps[SubOf(g.per, s)] != vps[n] {
      assert HasSector(g, target, SubOf(g.per, s));
    }
  }

  class Reader {
    const g: Geometry
    var segments: seq<Segment>

    constructor (g: Geometry)
      ensures this.g == g && segments == []
    {
      this.g, segments := g, [];
    }

    /** The inner loop: the segment of flash page vp, or the number of segments if there is none. */
    method Find(vp: nat) returns (i: nat)
      ensures i <= |segments| && (i < |segments| ==> segments[i].vp == vp)
      ensures i == |segments| ==> forall j | 0 <= j < i :: segments[j].vp != vp
    {
      i := 0;
      while i < |segments| && segments[i].vp != vp
        invariant i <= |segments| && forall j | 0 <= j < i :: segments[j].vp != vp
      {
        i := i + 1;
      }
    }

    /** One sub-page. */
    method AddSubPage(target: Mask, vps: seq<nat>, n: nat)
      requires n < |vps| && Grouped(g, target, vps, n, segments) && InPage(g, target)
      modifies this
      ensures Grouped(g, target, vps, n + 1, segments)
    {
      var sub := target * SubPage(g, n);
      if sub == {} {
        NoneAdded(g, target, vps, n, segments);
        return;
      }
      var i := Find(vps[n]);
      OneAdded(g, target, vps, n, segments, i);
      ghost var now := Added(segments, i, vps[n], sub);
      if i == |segments| {
        segments := segments + [Segment(vps[n], {})];
      }
      segments := segments[i := segments[i].(sectors := segments[i].sectors + sub)];
      assert {} + sub == sub;
      assert segments == now;
    }

    /** The segments of PMT_LOAD_PHASE. */
    method MakeSegments(target: Mask, vps: seq<nat>)
      requires InPage(g, target)
      modifies this
      ensures Grouped(g, target, vps, |vps|, segments)
    {
      segments := [];
      for n := 0 to |vps|
        invariant Grouped(g, target, vps, n, segments)
      {
        AddSubPage(target, vps, n);
      }
    }
  }

  /** Every sector that is wanted is in exactly one segment, and that is for the flash page of its sub-page. */
  lemma WantedOnce(g: Geometry, target: Mask, vps: seq<nat>, segs: seq<Segment>, s: nat)
    requires Grouped(g, target, vps, |vps|, segs) && s in target && SubOf(g.per, s) < |vps|
    ensures exists i :: 0 <= i < |segs| && s in segs[i].sectors && segs[i].vp == vps[SubOf(g.per, s)]
    ensures forall i, j | 0 <= i < |segs| && 0 <= j < |segs| && s in segs[i].sectors && s in segs[j].sectors :: i == j
  {
    var k := SubOf(g.per, s);
    assert HasSector(g, target, k);
    var i :| 0 <= i < |segs| && segs[i].vp == vps[k];
    assert SegmentOk(g, target, vps, |vps|, segs[i]) && s in segs[i].sectors;
    forall a, b | 0 <= a < |segs| && 0 <= b < |segs| && s in segs[a].sectors && s in segs[b].sectors ensures a == b {
      assert SegmentOk(g, target, vps, |vps|, segs[a]) && SegmentOk(g, target, vps, |vps|, segs[b]);
    }
  }
}
