/** The allocator of flash pages in one bank: a cursor for user data and one for the system's own data, each in a block
    of its own. */
module VpnAllocator {
  import opened Arith

  /** The good blocks from block b on. */
  ghost function GoodFrom(bad: seq<bool>, b: nat): nat
    decreases |bad| - b
  {
    if b >= |bad| then 0 else GoodFrom(bad, b + 1) + if bad[b] then 0 else 1
  }

  ghost function GoodCount(bad: seq<bool>): nat { GoodFrom(bad, 0) }

  /** Page v is of a good block, not the reserved one, that has been taken before block free. */
  ghost predicate Taken(bad: seq<bool>, per: nat, free: nat, v: nat)
    requires per > 0
  {
    1 <= v / per < free && v / per < |bad| && !bad[v / per]
  }

  /** A cursor is at the end of its block, or at a page that has not been handed out of a block that has been taken. */
  ghost predicate CursorOk(bad: seq<bool>, per: nat, free: nat, handed: set<nat>, c: nat)
    requires per > 0
  {
    c % per == 0 || (Taken(bad, per, free, c) && forall v <- handed | v / per == c / per :: v < c)
  }

  lemma NextPage(per: nat, c: nat)
    requires per > 0
    ensures (c + 1) % per == 0 || (c + 1) / per == c / per
  {
    var q, r := c / per, c % per;
    if r + 1 < per {
      DivUnique(c + 1, per, q, r + 1);
    } else {
      DivUnique(c + 1, per, q + 1, 0);
    }
  }

  lemma PastFirstBlock(per: nat, v: nat)
    requires per > 0 && v / per >= 1
    ensures v >= per
  {
  }

  /** gc_metadata of one bank. */
  datatype Meta = Meta(
    cursors: seq<nat>,             // next_vpn
    nextFree: nat,                 // next_free_block
    numFree: nat)                  // num_free_blocks
  {
    function At(i: nat): nat { if i < |cursors| then cursors[i] else 0 }
  }

  /** The pages of bank b. */
  ghost function PagesIn(handed: set<(nat, nat)>, b: nat): set<nat> { set p <- handed | p.0 == b :: p.1 }

  ghost predicate MetaOk(bad: seq<bool>, per: nat, m: Meta, handed: set<nat>) {
    && per > 0 && |m.cursors| == 2 && 1 <= m.nextFree <= |bad| && m.numFree <= GoodFrom(bad, m.nextFree)
    && (forall v <- handed :: Taken(bad, per, m.nextFree, v))
    && (forall i | 0 <= i < 2 :: CursorOk(bad, per, m.nextFree, handed, m.cursors[i]))
    && (m.cursors[0] % per != 0 && m.cursors[1] % per != 0 ==> m.cursors[0] / per != m.cursors[1] / per)
  }

  ghost predicate BankOk(bad: seq<seq<bool>>, per: nat, metas: seq<Meta>, handed: set<(nat, nat)>, b: nat) {
    b < |bad| && b < |metas| && MetaOk(bad[b], per, metas[b], PagesIn(handed, b))
  }

  /** A page of one bank leaves what has been handed out of the others alone. */
  lemma PagesInNext(handed: set<(nat, nat)>, b: nat, v: nat, c: nat)
    ensures PagesIn(handed + {(b, v)}, c) == if c == b then PagesIn(handed, c) + {v} else PagesIn(handed, c)
    ensures v in PagesIn(handed, b) <==> (b, v) in handed
  {
    var more := handed + {(b, v)};
    forall w ensures w in PagesIn(more, c) <==> (c, w) in more {
    }
    forall w ensures w in PagesIn(handed, c) <==> (c, w) in handed {
    }
    assert v in PagesIn(handed, b) <==> (b, v) in handed;
  }

  /** The cursor that is used moves on by one page. */
  lemma HandedOut(bad: seq<bool>, per: nat, m: Meta, handed: set<nat>, cursor: nat)
    requires MetaOk(bad, per, m, handed) && cursor < 2 && Taken(bad, per, m.nextFree, m.cursors[cursor])
    requires forall v <- handed | v / per == m.cursors[cursor] / per :: v < m.cursors[cursor]
    requires m.cursors[1 - cursor] % per == 0 || m.cursors[1 - cursor] / per != m.cursors[cursor] / per
    ensures var v := m.cursors[cursor];
      v !in handed && MetaOk(bad, per, m.(cursors := m.cursors[cursor := v + 1]), handed + {v})
  {
    NextPage(per, m.cursors[cursor]);
  }

  class Allocator {
    const banks: nat
    const bad: seq<seq<bool>>     // bb_is_bad, for each block of each bank
    const per: nat                // PAGES_PER_VBLK
    var metas: seq<Meta>          // _metadata
    ghost var handed: set<(nat, nat)>

    ghost predicate Valid()
      reads this
    {
      && |bad| == |metas| == banks && (forall p <- handed :: p.0 < banks && p.1 > 0)
      && forall b: nat {:trigger BankOk(bad, per, metas, handed, b)} | b < banks :: BankOk(bad, per, metas, handed, b)
    }

    /** The pages of bank b that have been handed out. */
    ghost predicate HasRoom(b: nat)
      reads this`metas
    {
      b < |metas| && metas[b].numFree > 0
    }

    /** gc_init: the first block of each bank is reserved. */
    constructor (bad: seq<seq<bool>>, per: nat)
      requires per > 0 && forall b | 0 <= b < |bad| :: GoodCount(bad[b]) > 0
      ensures Valid() && handed == {} && this.banks == |bad| && this.bad == bad && this.per == per
      ensures forall b | 0 <= b < |bad| :: metas[b].numFree == GoodCount(bad[b]) - 1
    {
      this.banks, this.bad, this.per := |bad|, bad, per;
      handed := {};
      var all: seq<Meta> := [];
      for b := 0 to |bad|
        invariant |all| == b && forall c: nat | c < b :: all[c] == Meta([0, 0], 1, GoodCount(bad[c]) - 1)
      {
        var good := CountGood(bad[b]);
        all := all + [Meta([0, 0], 1, good - 1)];
      }
      metas := all;
      forall b: nat | b < |bad| ensures BankOk(bad, per, all, {}, b) {
      }
    }

    static method CountGood(bad: seq<bool>) returns (n: nat)
      ensures n == GoodCount(bad)
    {
      n := 0;
      var b: nat := |bad|;
      while b > 0
        invariant b <= |bad| && n == GoodFrom(bad, b)
      {
        b := b - 1;
        n := n + if bad[b] then 0 else 1;
      }
    }

    /** find_next_good_vblk: with a free block left to count, the search ends before the end of the bank. */
    method FindNextGood(b: nat) returns (free: nat)
      requires Valid() && b < banks && HasRoom(b)
      ensures metas[b].nextFree <= free < |bad[b]| && !bad[b][free] && metas[b].numFree <= GoodFrom(bad[b], free)
    {
      assert BankOk(bad, per, metas, handed, b);
      free := metas[b].nextFree;
      while bad[b][free]
        invariant metas[b].nextFree <= free < |bad[b]| && metas[b].numFree <= GoodFrom(bad[b], free)
        decreases |bad[b]| - free
      {
        free := free + 1;
      }
    }

    /** The metadata for a page: a cursor at the end of its block moves to the first page of a block that nobody has
        used. */
    method Position(b: nat, cursor: nat) returns (m: Meta)
      requires Valid() && b < banks && cursor < 2 && HasRoom(b)
      ensures MetaOk(bad[b], per, m, PagesIn(handed, b)) && Taken(bad[b], per, m.nextFree, m.cursors[cursor])
      ensures forall v <- PagesIn(handed, b) | v / per == m.cursors[cursor] / per :: v < m.cursors[cursor]
      ensures m.cursors[1 - cursor] % per == 0 || m.cursors[1 - cursor] / per != m.cursors[cursor] / per
      ensures if metas[b].At(cursor) % per != 0 then m == metas[b]
              else m.cursors[cursor] % per == 0 && m.cursors[cursor] / per >= metas[b].nextFree
    {
      m := metas[b];
      assert BankOk(bad, per, metas, handed, b);
      if m.cursors[cursor] % per == 0 {
        var free := FindNextGood(b);
        DivUnique(free * per, per, free, 0);
        m := Meta(m.cursors[cursor := free * per], free + 1, m.numFree - 1);
      }
    }

    /** gc_allocate_new_vpn: a page that has never been handed out. Pages of a block go out in ascending order, and a
        new block is taken only when the last one is used up. */
    method Allocate(b: nat, cursor: nat) returns (v: nat)
      requires Valid() && b < banks && cursor < 2 && HasRoom(b)
      modifies this
      ensures Valid() && (b, v) !in old(handed) && handed == old(handed) + {(b, v)}
      ensures 0 < per <= v && v / per < |bad[b]| && !bad[b][v / per]
      ensures var c := old(metas)[b].At(cursor);
        if c % per != 0 then v == c else v % per == 0 && v / per >= old(metas)[b].nextFree
      ensures forall c: nat | c < banks && c != b :: metas[c] == old(metas)[c]
    {
      var m := Position(b, cursor);
      v := m.cursors[cursor];
      PastFirstBlock(per, v);
      HandedOut(bad[b], per, m, PagesIn(handed, b), cursor);
      ghost var was, before := metas, handed;
      metas := metas[b := m.(cursors := m.cursors[cursor := v + 1])];
      handed := handed + {(b, v)};
      forall c: nat | c < banks ensures BankOk(bad, per, metas, handed, c) {
        PagesInNext(before, b, v, c);
        assert BankOk(bad, per, was, before, c);
      }
    }
  }
}
