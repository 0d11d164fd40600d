/** fla_copy_buffer: copying the sectors of a mask from one page buffer to another. */
module FlashCopy {
  import opened Sectors
  import opened WbState

  /** What the target holds after the copy. */
  function Masked(to: seq<Sector>, from: seq<Sector>, mask: Mask): (r: seq<Sector>)
    requires |from| == |to|
    ensures |r| == |to|
  {
    seq(|to|, s requires 0 <= s < |to| => if s in mask then from[s] else to[s])
  }

  /** The nested scans of fla_copy_buffer: each run of sectors in the mask is found, and copied as a whole. */
  method CopySectors(to: seq<Sector>, from: seq<Sector>, mask: Mask) returns (r: seq<Sector>)
    requires |from| == |to|
    ensures r == Masked(to, from, mask)
  {
    r := to;
    var s := 0;
    while s < |to|
      invariant 0 <= s && |r| == |to|
      invariant forall i | 0 <= i < |to| :: r[i] == if i < s && i in mask then from[i] else to[i]
      decreases |to| - s
    {
      while s < |to| && s !in mask
        invariant 0 <= s <= |to|
        invariant forall i | 0 <= i < |to| :: r[i] == if i < s && i in mask then from[i] else to[i]
      {
        s := s + 1;
      }
      if s == |to| {
        break;
      }
      var begin := s;
      s := s + 1;
      while s < |to| && s in mask
        invariant begin < s <= |to| && forall i | begin <= i < s :: i in mask
      {
        s := s + 1;
      }
      r := r[..begin] + from[begin..s] + r[s..];
      s := s + 1;
    }
  }
}
