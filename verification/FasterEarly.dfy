/** A run in which full_merge returns early, after which no full merge succeeds any more. */
module FasterEarly {
  import opened Sectors
  import opened FasterState
  import opened FasterIsol
  import opened FasterSteps
  import opened FasterAfter
  import opened FasterDisk
  import opened FasterRuns
  import opened FasterSmall
  import opened FasterByTurns

  /** When six isolation blocks have been written, a page comes that belongs in the sequential log block. */
  function Early(): (r: seq<Command>)
    ensures |r| == 18 && r[17] == Write(Pg(0, 1)) && Begins(r, 17) && forall c <- r :: CommandOk(SMALL, c)
  {
    seq(17, i requires 0 <= i => WriteAt(i)) + [Write(Pg(0, 1))]
  }

  /** It has been written; a full merge is due. */
  function Appended17(): State {
    var st := TurnAt(17).st;
    st.(vc := st.vc + {Pg(0, 1)}, hash := st.hash[Pg(0, 1) := Pg(0, 1)], flash := st.flash[11 := TWO], swNext := 2)
  }

  lemma AppendedIs()
    ensures Shape(SMALL, TurnAt(17).st) && Stored(SMALL, TurnAt(17), Pg(0, 1), X) == Appended17()
    ensures Shape(SMALL, Appended17()) && KindOf(SMALL, TurnAt(17), Pg(0, 1)) == LogKind.Append
    ensures Merges(SMALL, TurnAt(17), Write(Pg(0, 1)))
  {
    TurnShape(17);
    Blocks3();
    DataIs(TurnAt(17), Pg(0, 1));
  }

  /** The first isolation block has one valid page, page 2 of the same data block, in its last page but one. */
  lemma FoundIsLast()
    ensures Shape(SMALL, Appended17()) && CanMerge(SMALL, Appended17()) && Found(SMALL, Appended17()) == Pg(0, 1)
    ensures VictimNames(SMALL, Appended17()) == NAMES && ReturnsEarly(SMALL, Appended17())
  {
    AppendedIs();
    var st := Appended17();
    assert Unused(SMALL, st, Pg(0, 0));
    assert !Unused(SMALL, st, Pg(0, 1)) by {
      assert st.hash[Pg(0, 2)] == Pg(2, 1);
    }
    assert FirstValid(SMALL, st, 0, 1) == 1 && FirstValid(SMALL, st, 0, 0) == 1;
  }

  /** In a run that starts with the format, a full merge returns early, and the victim page is stuck then. */
  lemma EarlyReturnHappens()
    ensures Shape(SMALL, Start(SMALL, GOOD).st) && Shape(SMALL, TurnAt(17).st)
    ensures RunOf(SMALL, Start(SMALL, GOOD), Early()[..17]) == Some(TurnAt(17))
    ensures Merges(SMALL, TurnAt(17), Early()[17]) && ReturnsEarly(SMALL, Stored(SMALL, TurnAt(17), Pg(0, 1), X))
    ensures var r := RunOf(SMALL, Start(SMALL, GOOD), Early()); r.Some? && Stuck(SMALL, r.value.st)
  {
    FirstIs();
    ReachesTurn(Early(), 17);
    assert Early()[..18] == Early();
    AppendedIs();
    FoundIsLast();
    DataIs(TurnAt(17), Pg(0, 1));
    RunOn(SMALL, First(), Early(), 17, TurnAt(17));
  }

  /** Whatever is written after that, a write with which a full merge is due is not accepted. */
  lemma NoMergeAfterIt(commands: seq<Command>)
    requires Early() < commands && forall c <- commands :: CommandOk(SMALL, c)
    ensures Shape(SMALL, Start(SMALL, GOOD).st)
    ensures RunOf(SMALL, Start(SMALL, GOOD), commands).Some? ==>
      var before, c := RunOf(SMALL, Start(SMALL, GOOD), commands[..|commands| - 1]), commands[|commands| - 1];
      before.Some? && IsPage(SMALL, c.d) && (c.Put? ==> !Merges(SMALL, before.value, c))
  {
    EarlyReturnHappens();
    assert commands[..18] == Early();
    NoMergeAnyMore(SMALL, Start(SMALL, GOOD), commands, 18);
  }
}
