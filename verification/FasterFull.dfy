/** A run in which the isolation area overflows. */
module FasterFull {
  import opened Sectors
  import opened FasterState
  import opened FasterIsol
  import opened FasterTurns
  import opened FasterDisk
  import opened FasterRuns
  import opened FasterSmall
  import opened FasterByTurns

  /** Two pages are written by turns until the isolation area is full, and once more. */
  function Full(): (r: seq<Command>)
    ensures |r| == 21 && r[20] == Write(Pg(0, 0)) && Begins(r, 21) && forall c <- r :: CommandOk(SMALL, c)
  {
    seq(21, i requires 0 <= i => WriteAt(i))
  }

  /** One of the two pages has had its second chance. */
  lemma LastVictim()
    ensures var st := TurnAt(20).st;
      && KindOf(SMALL, TurnAt(20), Pg(0, 0)) == Random && st.cur.o + 2 == 3 && st.rwFree == 1
      && VictimOf(SMALL, st.cur) == 1 && !IsPassedOver(SMALL, st, 1) && Migrants(SMALL, st, 1) == 1
  {
    var st := TurnAt(20).st;
    assert ValidIn(st, 1) == {Pg(0, 0), Pg(1, 0)} && ColdIn(st, 1) == {Pg(0, 0)};
  }

  /** All isolation blocks have been written to the end. */
  lemma LastRoom()
    ensures var st := TurnAt(20).st; var e := NextWrite(SMALL, st);
      && 0 < st.isolFree && e == Pg(0, 0) && CellAt(st.flash, LogVbn(SMALL, st, SMALL.logs + e.b), e.o).Page?
      && AllWritten(SMALL, st) && !MeetsVictim(SMALL, st) && !IsolRoom(SMALL, st, 1)
  {
  }

  /** The next write collects the random log block, and one page of it would go to the first isolation block, where a
      page has been written. The assertions of the code hold at that moment. */
  lemma LastPageOverflows()
    ensures var st := TurnAt(20).st; var e := NextWrite(SMALL, st);
      && KindOf(SMALL, TurnAt(20), Pg(0, 0)) == Random && st.cur.o + 2 == SMALL.pages && st.rwFree == 1
      && !IsPassedOver(SMALL, st, 1) && Migrants(SMALL, st, 1) == 1 && VictimOf(SMALL, st.cur) == 1
      && CellAt(st.flash, LogVbn(SMALL, st, SMALL.logs + e.b), e.o).Page?
      && 0 < st.isolFree && !MeetsVictim(SMALL, st) && AllWritten(SMALL, st) && !CanAssign(SMALL, st)
  {
    LastVictim();
    LastRoom();
  }

  lemma LastIsRefused()
    ensures Shape(SMALL, TurnAt(20).st) && !Accepts(SMALL, TurnAt(20), Write(Pg(0, 0)))
  {
    TurnShape(20);
    LastPageOverflows();
  }

  /** The isolation area overflows in a run that starts with the format. */
  lemma Overflows()
    ensures Shape(SMALL, Start(SMALL, GOOD).st)
    ensures RunOf(SMALL, Start(SMALL, GOOD), Full()[..20]) == Some(TurnAt(20))
    ensures RunOf(SMALL, Start(SMALL, GOOD), Full()) == None
  {
    FirstIs();
    ReachesTurn(Full(), 20);
    LastIsRefused();
    Stops(SMALL, First(), Full(), 20, TurnAt(20));
    assert Full()[..21] == Full();
  }
}
