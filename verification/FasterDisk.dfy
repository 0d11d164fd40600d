/** What the FASTer FTL is for: an array of pages. */
module FasterDisk {
  import opened Sectors
  import opened FasterState

  /** A host write to part of a page, or a read of a page. */
  datatype Command = Put(d: Pg, offset: nat, sectors: seq<Sector>) | Get(d: Pg)

  /** Sectors written over a page. */
  function Splice(g: Geometry, was: Data, offset: nat, sectors: seq<Sector>): (r: Data)
    ensures |r| == g.sects
  {
    seq(g.sects, i requires 0 <= i =>
      if offset <= i < offset + |sectors| then sectors[i - offset] else if i < |was| then was[i] else ALL_ONES)
  }

  predicate CommandOk(g: Geometry, c: Command)
  {
    IsPage(g, c.d) && (c.Put? ==> 0 < |c.sectors| && c.offset + |c.sectors| <= g.sects)
  }

  /** The content of page d after the commands: every sector as it was last written, and all ones where it never was. */
  function After(g: Geometry, commands: seq<Command>, d: Pg): Data {
    if commands == [] then Blank(g)
    else
      var c, was := commands[|commands| - 1], After(g, commands[..|commands| - 1], d);
      if c.Put? && c.d == d then Splice(g, was, c.offset, c.sectors) else was
  }

  /** What the reads of some commands return. */
  function Answers(g: Geometry, commands: seq<Command>): seq<Data> {
    if commands == [] then []
    else
      var before, c := commands[..|commands| - 1], commands[|commands| - 1];
      Answers(g, before) + if c.Get? then [After(g, before, c.d)] else []
  }

  /** There is one answer for each read. */
  function Gets(commands: seq<Command>): nat {
    if commands == [] then 0
    else Gets(commands[..|commands| - 1]) + if commands[|commands| - 1].Get? then 1 else 0
  }

  /** The answer of a read is in its place, and is what the commands before it have written. */
  lemma {:induction false} AnswersInOrder(g: Geometry, commands: seq<Command>, i: nat)
    requires i < |commands| && commands[i].Get?
    ensures |Answers(g, commands)| == Gets(commands) && Gets(commands[..i]) < Gets(commands)
    ensures Answers(g, commands)[Gets(commands[..i])] == After(g, commands[..i], commands[i].d)
  {
    var n := |commands| - 1;
    OneEach(g, commands[..n]);
    if i < n {
      assert commands[..n][..i] == commands[..i];
      AnswersInOrder(g, commands[..n], i);
    }
  }

  lemma {:induction false} OneEach(g: Geometry, commands: seq<Command>)
    ensures |Answers(g, commands)| == Gets(commands)
  {
    if commands == [] {
    } else {
      OneEach(g, commands[..|commands| - 1]);
    }
  }

  /** A sector that was never written reads as all ones. */
  lemma {:induction false} NeverWritten(g: Geometry, commands: seq<Command>, d: Pg, s: nat)
    requires s < g.sects
    requires forall j | 0 <= j < |commands| && commands[j].Put? && commands[j].d == d ::
               !(commands[j].offset <= s < commands[j].offset + |commands[j].sectors|)
    ensures |After(g, commands, d)| == g.sects && After(g, commands, d)[s] == ALL_ONES
  {
    if commands == [] {
    } else {
      var n := |commands| - 1;
      assert forall j | 0 <= j < n :: commands[..n][j] == commands[j];
      NeverWritten(g, commands[..n], d, s);
    }
  }

  /** The last write to a sector decides. */
  lemma {:induction false} LastWriteWins(g: Geometry, commands: seq<Command>, i: nat, d: Pg, s: nat)
    requires i < |commands| && commands[i].Put? && commands[i].d == d && s < g.sects
    requires commands[i].offset <= s < commands[i].offset + |commands[i].sectors|
    requires forall j | i < j < |commands| && commands[j].Put? && commands[j].d == d ::
               !(commands[j].offset <= s < commands[j].offset + |commands[j].sectors|)
    ensures |After(g, commands, d)| == g.sects
    ensures After(g, commands, d)[s] == commands[i].sectors[s - commands[i].offset]
  {
    var n := |commands| - 1;
    if i == n {
    } else {
      assert forall j | 0 <= j < n :: commands[..n][j] == commands[j];
      LastWriteWins(g, commands[..n], i, d, s);
    }
  }

  // ---- the state after format -----------------------------------------------------------------------------------

  /** The tables and the flash after the format: the good blocks are shared out to the data blocks, the free ring, the
      isolation area and the log area, in this order. */
  function Formatted(g: Geometry, good: seq<nat>): State
    requires |good| == g.datas + g.frees + g.isols + g.used && g.used <= g.logs && 0 < g.pages && 0 < g.used
  {
    var nowhere := seq(g.pages, o => NOWHERE);
    State(good[..g.datas], good[g.datas + g.frees + g.isols..] + seq(g.logs - g.used, b => NONE),
          good[g.datas + g.frees..g.datas + g.frees + g.isols], good[g.datas..g.datas + g.frees],
          {}, map[], {}, seq(g.blocks, v => seq(g.pages, o => Erased)), NONE, 0, Pg(0, g.pages - 1), g.used - 1,
          nowhere, NOWHERE, nowhere, g.isols, NOWHERE, nowhere)
  }

  /** The good blocks are shared out in order to the data blocks, the free ring, the isolation area and the log area. */
  ghost predicate SharedOut(g: Geometry, st: State, good: seq<nat>) {
    && |good| == g.datas + g.frees + g.isols + g.used
    && st.data == good[..g.datas] && st.free == good[g.datas..g.datas + g.frees]
    && st.isol == good[g.datas + g.frees..g.datas + g.frees + g.isols]
    && |st.log| == g.logs && g.used <= g.logs && st.log[..g.used] == good[g.datas + g.frees + g.isols..]
    && forall b | g.used <= b < g.logs :: st.log[b] == NONE
  }

  /** Where in the list the block of an owner comes from. */
  function PlaceOf(g: Geometry, o: Owner): nat {
    match o
    case DataOf(i) => i
    case LogOf(i) => if i < g.logs then g.datas + g.frees + g.isols + i else g.datas + g.frees + (i - g.logs)
  }

  lemma VbnIsPlace(g: Geometry, st: State, good: seq<nat>, o: Owner)
    requires Shape(g, st) && SharedOut(g, st, good) && IsOwner(g, o)
    ensures PlaceOf(g, o) < |good| && VbnOf(g, st, o) == good[PlaceOf(g, o)]
  {
    match o
    case DataOf(i) =>
    case LogOf(i) =>
      if i < g.logs {
        assert st.log[i] == st.log[..g.used][i];
      }
  }

  lemma SharedOutIsOk(g: Geometry, st: State, good: seq<nat>)
    requires Shape(g, st) && SharedOut(g, st, good) && (forall i | 0 <= i < |good| :: good[i] < g.blocks)
    requires forall i, j | 0 <= i < j < |good| :: good[i] != good[j]
    ensures BlocksOk(g, st)
  {
    forall o | IsOwner(g, o) ensures OwnerOk(g, st, o) {
      VbnIsPlace(g, st, good, o);
      forall i | 0 <= i < |st.free| ensures st.free[i] != VbnOf(g, st, o) {
        assert st.free[i] == good[g.datas + i];
      }
    }
    forall o, p | IsOwner(g, o) && IsOwner(g, p) ensures TwoOwners(g, st, o, p) {
      VbnIsPlace(g, st, good, o);
      VbnIsPlace(g, st, good, p);
    }
    forall i | 0 <= i < |st.free| ensures st.free[i] == good[g.datas + i] {
    }
    forall b | 0 <= b < |st.log| ensures st.log[b] == NONE <==> g.used <= b {
      if b < g.used {
        assert st.log[b] == st.log[..g.used][b];
      }
    }
  }

  /** Nothing is in the log area, and everything is erased. */
  lemma FormattedIsOk(g: Geometry, st: State, good: seq<nat>)
    requires Shape(g, st) && SharedOut(g, st, good) && (forall i | 0 <= i < |good| :: good[i] < g.blocks)
    requires forall i, j | 0 <= i < j < |good| :: good[i] != good[j]
    requires forall v: nat, o: nat :: CellAt(st.flash, v, o) == Erased
    requires st.hash == map[] && st.vc == {} && st.swLbn == NONE && st.swNext == 0
    requires st.cur == Pg(0, g.pages - 1) && st.rwFree == g.used - 1 && st.isolCur == NOWHERE && st.vt == NOWHERE
    requires st.isolFree == g.isols
    ensures Inv(g, st) && forall d :: Resolve(g, st, d) == Blank(g)
  {
    SharedOutIsOk(g, st, good);
    assert FreeErased(st);
    forall b: nat | g.logs <= b < g.logs + g.isols ensures Ascending(g, st, b) {
    }
    forall b: nat | OpenBlock(g, st.cur) < b < g.used ensures Fresh(g, st, b) {
    }
    forall i: nat | i < g.isols ensures InTurn(g, st, i) {
    }
  }
}
