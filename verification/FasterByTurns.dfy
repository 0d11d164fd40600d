/** A run of a small FASTer FTL from the format on, write by write: after the first ones, two pages are written in turn,
    and each write collects the random log block and sends a page to the isolation area. */
module FasterByTurns {
  import opened FasterState
  import opened FasterMerge
  import opened FasterIsol
  import opened FasterTurns
  import opened FasterWrite
  import opened FasterAfter
  import opened FasterDisk
  import opened FasterRuns
  import opened FasterSmall

  /** Page 0 of data block 0 is written to the sequential log block first, and then to the random log area. */
  function WriteAt(i: nat): Command {
    if i == 2 then Write(Pg(0, 2)) else if 5 <= i && i % 2 == 1 then Write(Pg(1, 0)) else Write(Pg(0, 0))
  }

  /** The commands begin with these writes, n of them. */
  ghost predicate Begins(all: seq<Command>, n: nat) { n <= |all| && forall i | 0 <= i < n :: all[i] == WriteAt(i) }

  /** The first i writes lead to the moment. */
  ghost predicate UpTo(all: seq<Command>, i: nat, now: Moment) {
    i <= |all| && Reaches(SMALL, First(), all[..i], now)
  }

  lemma GoesOn(all: seq<Command>, i: nat, now: Moment, next: Moment)
    requires i < |all| && UpTo(all, i, now) && Leads(SMALL, now, all[i], next)
    ensures UpTo(all, i + 1, next)
  {
    Goes(SMALL, First(), all, i, now, next);
  }

  // ---- the writes one by one ----------------------------------------------------------------------------------------

  /** The moment after one write, and so on. */
  function At1(): Moment {
    var st := First().st.(vc := {Pg(0, 0)}, hash := map[Pg(0, 0) := Pg(0, 0)],
        flash := Flash(EMPTY, NoBlocks(), ONE, EMPTY), swLbn := 0, swNext := 1);
    First().(st := st, corrPage := Pg(0, 0), pace := Pace(1, 0, 0, 0, false))
  }

  lemma Step1()
    ensures Leads(SMALL, First(), Write(Pg(0, 0)), At1())
  {
    Blocks3();
    DataIs(First(), Pg(0, 0));
    assert Stored(SMALL, First(), Pg(0, 0), X).flash == At1().st.flash;
  }

  lemma ReachesAt1(all: seq<Command>)
    requires Begins(all, 1)
    ensures UpTo(all, 1, At1())
  {
    Step1();
    GoesOn(all, 0, First(), At1());
  }

  function At2(): Moment {
    var st := At1().st.(hash := map[Pg(0, 0) := Pg(1, 0)],
        flash := Flash(EMPTY, NoBlocks(), ONE, ONE), cur := Pg(1, 0),
        rwList := [Pg(0, 0), NOWHERE, NOWHERE]);
    At1().(st := st, pace := Pace(2, 0, 0, 0, false))
  }

  lemma Step2()
    ensures Leads(SMALL, At1(), Write(Pg(0, 0)), At2())
  {
    Blocks3();
    DataIs(At1(), Pg(0, 0));
    assert Stored(SMALL, At1(), Pg(0, 0), X).flash == At2().st.flash;
  }

  lemma ReachesAt2(all: seq<Command>)
    requires Begins(all, 2)
    ensures UpTo(all, 2, At2())
  {
    ReachesAt1(all);
    Step2();
    GoesOn(all, 1, At1(), At2());
  }

  function At3(): Moment {
    var st := At2().st.(vc := {Pg(0, 0), Pg(0, 2)}, hash := map[Pg(0, 0) := Pg(1, 0), Pg(0, 2) := Pg(1, 1)],
        flash := Flash(EMPTY, NoBlocks(), ONE, TWO), cur := Pg(1, 1),
        rwList := NAMES);
    At2().(st := st, pace := Pace(3, 0, 0, 0, false))
  }

  lemma Step3()
    ensures Leads(SMALL, At2(), Write(Pg(0, 2)), At3())
  {
    Blocks3();
    DataIs(At2(), Pg(0, 2));
    assert Stored(SMALL, At2(), Pg(0, 2), X).flash == At3().st.flash;
  }

  lemma ReachesAt3(all: seq<Command>)
    requires Begins(all, 3)
    ensures UpTo(all, 3, At3())
  {
    ReachesAt2(all);
    Step3();
    GoesOn(all, 2, At2(), At3());
  }

  function At4(): Moment {
    var st := At3().st.(log := [11, 2], free := [12], hash := map[Pg(0, 0) := Pg(1, 0), Pg(0, 2) := Pg(2, 1)],
        sc := {Pg(1, 2)}, flash := Flash(ONE, NoBlocks()[0 := TWO], ONE, EMPTY), cur := Pg(1, 0),
        isolCur := Pg(0, 1), isolList := NAMES);
    At3().(st := st, pace := Pace(4, 0, 0, 0, false))
  }

  /** In write 4, the random log block has been filled; its pages are looked at one after the other; and the block has
      been collected. */
  function Filled4(): State { var st := At3().st; st.(rwFree := 0, flash := st.flash[12 := Named(Pg(0, 0), Pg(0, 2))]) }

  function Half4(): Mid {
    var st := Chances(Filled4(), NAMES);
    var m := st.(rwList := NAMES, free := []);
    Mid(m.(sc := m.sc - {Pg(1, 0)}, hash := m.hash[Pg(0, 0) := Pg(2, 0)], flash := m.flash[3 := ONE],
        isolCur := Pg(0, 0), isolList := m.isolList[0 := Pg(0, 0)]), 0)
  }

  function Both4(): Mid {
    var m := Half4().st;
    Mid(m.(sc := m.sc - {Pg(1, 1)}, hash := m.hash[Pg(0, 2) := Pg(2, 1)], flash := m.flash[3 := TWO],
        isolCur := Pg(0, 1), isolList := m.isolList[1 := Pg(0, 2)]), 0)
  }

  function Freed4(): State {
    var m := Both4().st;
    m.(log := [11, 2], free := [12], flash := m.flash[12 := EMPTY], cur := Pg(0, 2), rwFree := 1)
  }

  lemma Step4Steps()
    ensures var st := Chances(Filled4(), NAMES);
      MigrateStep(SMALL, Mid(st.(rwList := NAMES, free := []), 0), 1, 2, 0) == Half4()
    ensures MigrateStep(SMALL, Half4(), 1, 2, 1) == Both4()
  {
    Blocks3();
  }

  lemma Step4Names()
    ensures var st := Chances(Filled4(), NAMES);
      && Shape(SMALL, st) && SiftedNames(SMALL, st, 1) == NAMES && !IsPassedOver(SMALL, st, 1)
      && IsolRoom(SMALL, st, Migrants(SMALL, st, 1))
  {
    var st := Chances(Filled4(), NAMES);
    assert ValidIn(st, 1) == {Pg(0, 0), Pg(0, 2)} && ColdIn(st, 1) == {Pg(0, 0), Pg(0, 2)};
  }

  lemma Step4Collects()
    ensures IsCollected(Chances(Filled4(), NAMES), NAMES, Half4(), Both4(), Freed4())
  {
    Blocks3();
    Step4Names();
    Step4Steps();
  }

  lemma Step4Fills()
    ensures Shape(SMALL, At3().st) && Shape(SMALL, Filled4())
    ensures Filled4() == Closed(SMALL, At3().st).(rwFree := 0)
    ensures BothWarm(Filled4(), Pg(0, 0), Pg(0, 2))
  {
    assert ValidIn(Filled4(), 1) == {Pg(0, 0), Pg(0, 2)};
    assert ColdIn(Filled4(), 1) == {};
    assert SiftedNames(SMALL, Filled4(), 1) == NAMES;
  }

  lemma Step4Flash()
    ensures Both4().st.flash[12 := EMPTY][2 := ONE] == At4().st.flash
  {
  }

  lemma Step4Writes()
    ensures Shape(SMALL, Freed4()) && Advanced(SMALL, Freed4()).cur == Pg(1, 0)
    ensures At4().st == Written(SMALL, Advanced(SMALL, Freed4()), Pg(0, 0), Pg(1, 0), X)
  {
    Blocks3();
    Step4Flash();
    var next := Written(SMALL, Advanced(SMALL, Freed4()), Pg(0, 0), Pg(1, 0), X);
    assert next.hash == At4().st.hash && next.sc == At4().st.sc;
    assert next.isolList == At4().st.isolList && next.free == At4().st.free && next.log == At4().st.log;
  }

  lemma Step4()
    ensures Leads(SMALL, At3(), Write(Pg(0, 0)), At4())
  {
    assert KindOf(SMALL, At3(), Pg(0, 0)) == Random && At4() == Paced(At3(), Pg(0, 0), At4().st, 8);
    Step4Fills();
    Step4Collects();
    Step4Writes();
    PassingWrite(At3(), Pg(0, 0), Filled4(), NAMES, Half4(), Both4(), Freed4(), At4());
  }

  lemma ReachesAt4(all: seq<Command>)
    requires Begins(all, 4)
    ensures UpTo(all, 4, At4())
  {
    ReachesAt3(all);
    Step4();
    GoesOn(all, 3, At3(), At4());
  }

  function At5(): Moment {
    var st := At4().st.(hash := map[Pg(0, 0) := Pg(1, 1), Pg(0, 2) := Pg(2, 1)],
        flash := Flash(TWO, NoBlocks()[0 := TWO], ONE, EMPTY), cur := Pg(1, 1),
        rwList := [Pg(0, 0), Pg(0, 0), NOWHERE]);
    At4().(st := st, pace := Pace(5, 0, 0, 0, false))
  }

  lemma Step5()
    ensures Leads(SMALL, At4(), Write(Pg(0, 0)), At5())
  {
    Blocks3();
    DataIs(At4(), Pg(0, 0));
    assert Stored(SMALL, At4(), Pg(0, 0), X).flash == At5().st.flash;
  }

  lemma ReachesAt5(all: seq<Command>)
    requires Begins(all, 5)
    ensures UpTo(all, 5, At5())
  {
    ReachesAt4(all);
    Step5();
    GoesOn(all, 4, At4(), At5());
  }

  // ---- two pages that are written in turn ---------------------------------------------------------------------------

  /** The isolation area, when it is not empty: its blocks, the page written last, the names, and the count of free
      blocks. */
  datatype Area = Area(blocks: seq<seq<Cell>>, cur: Pg, list: seq<Pg>, free: int) {
    ghost predicate Valid() {
      && |blocks| == 8 && |list| == 3 && list[2] == NOWHERE && cur.b < 8 && cur.o < 2
      && blocks[cur.b] == (if cur.o == 0 then ONE else TWO) && (cur.o == 1 ==> cur.b < 7 && blocks[cur.b + 1] == EMPTY)
    }

    /** Page c goes there. */
    ghost function With(c: Pg): Area
      requires Valid()
    {
      if cur.o == 0 then Area(blocks[cur.b := TWO], Pg(cur.b, 1), list[1 := c], free)
      else Area(blocks[cur.b := Named(list[0], list[1])][cur.b + 1 := ONE], Pg(cur.b + 1, 0), list[0 := c], free - 1)
    }
  }

  /** Page 0 of each data block, and the two physical blocks that the random log block is in by turns. */
  ghost predicate InTurns(c: Pg, d: Pg, v: nat, t: nat, a: Area) {
    && (c, d) in {(Pg(0, 0), Pg(1, 0)), (Pg(1, 0), Pg(0, 0))} && (v, t) in {(2, 12), (12, 2)}
    && a.Valid() && forall b | 0 <= b < 8 :: |a.blocks[b]| == 3
  }

  /** Pages c and d are in random log block v, and c has had its second chance. */
  function Turn(c: Pg, d: Pg, v: nat, t: nat, a: Area, pace: Pace): Moment
    requires |a.blocks| == 8
  {
    var flash := Flash(if v == 2 then TWO else EMPTY, a.blocks, ONE, if v == 12 then TWO else EMPTY);
    Moment(State([0, 1], [11, v], Isol(), [t], {Pg(0, 0), Pg(0, 2), Pg(1, 0)},
                 map[c := Pg(1, 0), d := Pg(1, 1), Pg(0, 2) := Pg(2, 1)], {Pg(1, 0), Pg(1, 2)}, flash, 0, 1, Pg(1, 1),
                 1, [c, d, NOWHERE], a.cur, a.list, a.free, NOWHERE, NO_NAMES), Pg(1, 0), 1, pace)
  }

  function Filled(st: State, v: nat): State
    requires v < |st.flash| && |st.rwList| == 3
  {
    st.(rwFree := 0, flash := st.flash[v := Named(st.rwList[0], st.rwList[1])])
  }

  /** Page c has gone to the isolation area. */
  ghost function Half(st: State, c: Pg, a: Area): Mid
    requires a.Valid() && |st.flash| == 13
  {
    var a', b := a.With(c), a.cur.b;
    var flash := if a.cur.o == 0 then st.flash[3 + b := TWO]
                 else st.flash[3 + b := Named(a.list[0], a.list[1])][4 + b := ONE];
    Mid(st.(free := [], sc := st.sc - {Pg(1, 0)}, hash := st.hash[c := Pg(2 + a'.cur.b, a'.cur.o)], flash := flash,
            isolCur := a'.cur, isolList := a'.list, isolFree := a'.free), 0)
  }

  /** Page d gets its second chance, in physical block t. */
  ghost function Both(m: State, d: Pg, t: nat): Mid
    requires t < |m.flash| && |m.rwList| == 3
  {
    Mid(m.(sc := m.sc - {Pg(1, 1)} + {Pg(1, 0)}, hash := m.hash[d := Pg(1, 0)], flash := m.flash[t := ONE],
           rwList := m.rwList[0 := d]), 1)
  }

  /** The log block takes the other physical block. */
  ghost function Returned(m: State, v: nat, t: nat): State
    requires v < |m.flash|
  {
    m.(log := [11, t], free := [v], flash := m.flash[v := EMPTY], cur := Pg(1, 0), rwFree := 1)
  }

  lemma TurnFills(c: Pg, d: Pg, v: nat, t: nat, a: Area, pace: Pace)
    requires InTurns(c, d, v, t, a)
    ensures var st := Turn(c, d, v, t, a, pace).st;
      Shape(SMALL, st) && Shape(SMALL, Filled(st, v)) && Filled(st, v) == Closed(SMALL, st).(rwFree := 0)
  {
  }

  lemma TurnNames(c: Pg, d: Pg, v: nat, t: nat, a: Area, pace: Pace)
    requires InTurns(c, d, v, t, a)
    ensures var st := Filled(Turn(c, d, v, t, a, pace).st, v);
      && SiftedNames(SMALL, st, 1) == [c, d, NOWHERE] && !IsPassedOver(SMALL, st, 1)
      && Migrants(SMALL, st, 1) == 1 && IsolRoom(SMALL, st, 1)
  {
    var st := Filled(Turn(c, d, v, t, a, pace).st, v);
    assert ValidIn(st, 1) == {c, d} && ColdIn(st, 1) == {c};
  }

  /** The isolation block that is being written has room for page c, or the next one is begun. */
  lemma TurnStays(c: Pg, d: Pg, v: nat, t: nat, a: Area, pace: Pace)
    requires InTurns(c, d, v, t, a) && a.cur.o == 0
    ensures var st := Filled(Turn(c, d, v, t, a, pace).st, v);
      Isolated(SMALL, st.(free := [], sc := st.sc - {Pg(1, 0)}), 1, 0) == Half(st, c, a).st
  {
    Blocks3();
  }

  lemma TurnEnds(c: Pg, d: Pg, v: nat, t: nat, a: Area, pace: Pace, st: State)
    requires InTurns(c, d, v, t, a) && a.cur.o == 1
    requires st == Filled(Turn(c, d, v, t, a, pace).st, v).(free := [], sc := st.sc)
    ensures NextWrite(SMALL, st) == Pg(a.cur.b + 1, 0)
    ensures NamesWritten(SMALL, st) ==
      st.(flash := st.flash[3 + a.cur.b := Named(a.list[0], a.list[1])], isolFree := a.free - 1)
  {
    Blocks3();
    assert a.list == [a.list[0], a.list[1], NOWHERE];
  }

  lemma TurnGoesOn(c: Pg, d: Pg, v: nat, t: nat, a: Area, pace: Pace)
    requires InTurns(c, d, v, t, a) && a.cur.o == 1
    ensures var st := Filled(Turn(c, d, v, t, a, pace).st, v);
      Isolated(SMALL, st.(free := [], sc := st.sc - {Pg(1, 0)}), 1, 0) == Half(st, c, a).st
  {
    Blocks3();
    var st := Filled(Turn(c, d, v, t, a, pace).st, v).(free := []);
    var was := st.(sc := st.sc - {Pg(1, 0)});
    TurnEnds(c, d, v, t, a, pace, was);
    var mid, b := NamesWritten(SMALL, was), a.cur.b + 1;
    assert Program(mid.flash, 3 + b, 0, Page(X)) == mid.flash[3 + b := ONE];
    assert Isolated(SMALL, was, 1, 0) == Appended(SMALL, mid, c, b, 0, X);
  }

  lemma TurnIsolates(c: Pg, d: Pg, v: nat, t: nat, a: Area, pace: Pace)
    requires InTurns(c, d, v, t, a)
    ensures var st := Filled(Turn(c, d, v, t, a, pace).st, v);
      MigrateStep(SMALL, Mid(st.(free := []), 0), 1, t, 0) == Half(st, c, a)
  {
    if a.cur.o == 0 {
      TurnStays(c, d, v, t, a, pace);
    } else {
      TurnGoesOn(c, d, v, t, a, pace);
    }
  }

  lemma TurnChances(c: Pg, d: Pg, v: nat, t: nat, a: Area, pace: Pace)
    requires InTurns(c, d, v, t, a)
    ensures var m := Half(Filled(Turn(c, d, v, t, a, pace).st, v), c, a);
      MigrateStep(SMALL, m, 1, t, 1) == Both(m.st, d, t)
  {
    Blocks3();
  }

  lemma TurnCollects(c: Pg, d: Pg, v: nat, t: nat, a: Area, pace: Pace)
    requires InTurns(c, d, v, t, a)
    ensures var st := Filled(Turn(c, d, v, t, a, pace).st, v);
      var m1 := Half(st, c, a); var m2 := Both(m1.st, d, t);
      IsCollected(st, [c, d, NOWHERE], m1, m2, Returned(m2.st, v, t))
  {
    var st := Filled(Turn(c, d, v, t, a, pace).st, v);
    assert st.(rwList := [c, d, NOWHERE], free := []) == st.(free := []) && st.(rwList := [c, d, NOWHERE]) == st;
    Blocks3();
    assert [11, v][1 := t] == [11, t] && [t][1..] + [v] == [v];
    TurnFills(c, d, v, t, a, pace);
    TurnNames(c, d, v, t, a, pace);
    TurnIsolates(c, d, v, t, a, pace);
    TurnChances(c, d, v, t, a, pace);
  }

  lemma TurnFlash(c: Pg, d: Pg, v: nat, t: nat, a: Area, pace: Pace, pace': Pace)
    requires InTurns(c, d, v, t, a)
    ensures var m := Half(Filled(Turn(c, d, v, t, a, pace).st, v), c, a).st;
      Turn(d, c, t, v, a.With(c), pace').st.flash == m.flash[t := ONE][v := EMPTY][t := TWO]
  {
  }

  lemma TurnTables(c: Pg, d: Pg, v: nat, t: nat, a: Area, pace: Pace, pace': Pace)
    requires InTurns(c, d, v, t, a)
    ensures var was, st := Turn(c, d, v, t, a, pace).st, Turn(d, c, t, v, a.With(c), pace').st;
      && st.hash == was.hash[c := Pg(2 + a.With(c).cur.b, a.With(c).cur.o)][d := Pg(1, 0)][c := Pg(1, 1)]
      && st.sc == was.sc - {Pg(1, 0)} - {Pg(1, 1)} + {Pg(1, 0)} && st.rwList == was.rwList[0 := d][1 := c]
  {
  }

  lemma TurnWrites(c: Pg, d: Pg, v: nat, t: nat, a: Area, pace: Pace, pace': Pace)
    requires InTurns(c, d, v, t, a)
    ensures var m := Both(Half(Filled(Turn(c, d, v, t, a, pace).st, v), c, a).st, d, t);
      var r := Returned(m.st, v, t);
      && Shape(SMALL, r) && Advanced(SMALL, r).cur == Pg(1, 1)
      && Turn(d, c, t, v, a.With(c), pace').st == Written(SMALL, Advanced(SMALL, r), c, Pg(1, 1), X)
  {
    Blocks3();
    TurnTables(c, d, v, t, a, pace, pace');
    TurnFlash(c, d, v, t, a, pace, pace');
  }

  lemma TurnIsPaced(c: Pg, d: Pg, v: nat, t: nat, a: Area, pace: Pace, pace': Pace)
    requires InTurns(c, d, v, t, a) && pace' == Tuned(SMALL, pace.(writes := pace.writes + 1), a.With(c).free)
    ensures var now, next := Turn(c, d, v, t, a, pace), Turn(d, c, t, v, a.With(c), pace');
      KindOf(SMALL, now, c) == Random && next == Paced(now, c, next.st, a.With(c).free)
  {
  }

  /** Page c is written again: its old copy has gone to the isolation area before. */
  lemma TurnLeads(c: Pg, d: Pg, v: nat, t: nat, a: Area, pace: Pace, pace': Pace)
    requires InTurns(c, d, v, t, a) && pace' == Tuned(SMALL, pace.(writes := pace.writes + 1), a.With(c).free)
    ensures Leads(SMALL, Turn(c, d, v, t, a, pace), Write(c), Turn(d, c, t, v, a.With(c), pace'))
  {
    var now := Turn(c, d, v, t, a, pace);
    var m1 := Half(Filled(now.st, v), c, a);
    var m2 := Both(m1.st, d, t);
    TurnFills(c, d, v, t, a, pace);
    TurnCollects(c, d, v, t, a, pace);
    TurnWrites(c, d, v, t, a, pace, pace');
    TurnIsPaced(c, d, v, t, a, pace, pace');
    CollectingWrite(now, c, Filled(now.st, v), [c, d, NOWHERE], m1, m2, Returned(m2.st, v, t),
                    Turn(d, c, t, v, a.With(c), pace'));
  }

  // ---- the writes by turns ------------------------------------------------------------------------------------------

  const OTHERS: seq<Pg> := [Pg(0, 0), Pg(1, 0), NOWHERE]

  /** The page that is written after i writes, and the block that the random log block is in then. */
  function PageAt(i: nat): Pg { if i % 2 == 0 then Pg(0, 0) else Pg(1, 0) }

  function VbnAt(i: nat): nat { if i % 2 == 0 then 12 else 2 }

  /** The page of the isolation area that was written last, and the blocks of the area. */
  function CurAt(i: nat): Pg { if i < 5 then Pg(0, 0) else Pg((i - 5) / 2, (i - 5) % 2) }

  function BlockAt(i: nat, b: nat): seq<Cell> {
    if b < CurAt(i).b then (if b == 0 then Named(Pg(0, 0), Pg(0, 2)) else Named(Pg(0, 0), Pg(1, 0)))
    else if b > CurAt(i).b then EMPTY
    else if CurAt(i).o == 0 then ONE else TWO
  }

  function AreaAt(i: nat): Area {
    Area(seq(8, b requires 0 <= b => BlockAt(i, b)), CurAt(i), if i < 8 then NAMES else OTHERS, 8 - CurAt(i).b)
  }

  function PaceAt(i: nat): Pace {
    if i == 6 then Pace(6, 0, 0, 0, false) else if i == 7 then Pace(0, 0, 1, 0, false) else Pace(0, 0, 2, 0, false)
  }

  /** The moment after i writes. */
  function TurnAt(i: nat): Moment { Turn(PageAt(i), PageAt(i + 1), VbnAt(i), VbnAt(i + 1), AreaAt(i), PaceAt(i)) }

  function At6(): Moment { TurnAt(6) }

  function Filled6(): State { var st := At5().st; st.(rwFree := 0, flash := st.flash[2 := Named(Pg(0, 0), Pg(0, 0))]) }

  function Half6(): Mid {
    var st := Filled6();
    var m := st.(rwList := [NOWHERE, Pg(0, 0), NOWHERE], free := []);
    Mid(m.(sc := m.sc - {Pg(1, 0)}), 0)
  }

  function Both6(): Mid {
    var m := Half6().st;
    Mid(m.(sc := m.sc - {Pg(1, 1)} + {Pg(1, 0)}, hash := m.hash[Pg(0, 0) := Pg(1, 0)], flash := m.flash[12 := ONE],
        rwList := m.rwList[0 := Pg(0, 0)]), 1)
  }

  function Freed6(): State {
    var m := Both6().st;
    m.(log := [11, 12], free := [2], flash := m.flash[2 := EMPTY], cur := Pg(1, 0), rwFree := 1)
  }

  lemma Step6Steps()
    ensures var st := Filled6();
      MigrateStep(SMALL, Mid(st.(rwList := [NOWHERE, Pg(0, 0), NOWHERE], free := []), 0), 1, 12, 0) == Half6()
    ensures MigrateStep(SMALL, Half6(), 1, 12, 1) == Both6()
  {
    Blocks3();
  }

  lemma Step6Collects()
    ensures IsCollected(Filled6(), [NOWHERE, Pg(0, 0), NOWHERE], Half6(), Both6(), Freed6())
  {
    Blocks3();
    var st, list := Filled6(), [NOWHERE, Pg(0, 0), NOWHERE];
    assert ValidIn(st, 1) == {Pg(0, 0)} && ColdIn(st, 1) == {};
    assert SiftedNames(SMALL, st, 1) == list;
    Step6Steps();
  }

  lemma Step6Fills()
    ensures Shape(SMALL, At5().st) && Shape(SMALL, Filled6())
    ensures Filled6() == Closed(SMALL, At5().st).(rwFree := 0)
  {
  }

  lemma Step6Area()
    ensures AreaAt(6).blocks == NoBlocks()[0 := TWO]
    ensures Both6().st.flash[2 := EMPTY][12 := TWO] == At6().st.flash
  {
  }

  lemma Step6Writes()
    ensures Shape(SMALL, Freed6()) && Advanced(SMALL, Freed6()).cur == Pg(1, 1)
    ensures At6().st == Written(SMALL, Advanced(SMALL, Freed6()), Pg(1, 0), Pg(1, 1), X)
  {
    Blocks3();
    Step6Area();
    var next := Written(SMALL, Advanced(SMALL, Freed6()), Pg(1, 0), Pg(1, 1), X);
    assert next.hash == At6().st.hash && next.sc == At6().st.sc;
    assert next.rwList == At6().st.rwList && next.free == At6().st.free && next.log == At6().st.log;
  }

  lemma Step6()
    ensures Leads(SMALL, At5(), Write(Pg(1, 0)), At6())
  {
    Step6Fills();
    Step6Collects();
    Step6Writes();
    CollectingWrite(At5(), Pg(1, 0), Filled6(), [NOWHERE, Pg(0, 0), NOWHERE], Half6(), Both6(), Freed6(), At6());
  }

  lemma ReachesAt6(all: seq<Command>)
    requires Begins(all, 6)
    ensures UpTo(all, 6, At6())
  {
    ReachesAt5(all);
    Step6();
    GoesOn(all, 5, At5(), At6());
  }

  lemma AreaGoes(i: nat)
    requires 6 <= i < 20
    ensures AreaAt(i).Valid() && AreaAt(i).With(PageAt(i)) == AreaAt(i + 1)
    ensures PaceAt(i + 1) == Tuned(SMALL, PaceAt(i).(writes := PaceAt(i).writes + 1), AreaAt(i + 1).free)
    ensures forall b | 0 <= b < 8 :: |AreaAt(i).blocks[b]| == 3
  {
    var a, a' := AreaAt(i), AreaAt(i + 1);
    assert a.With(PageAt(i)).blocks == a'.blocks && a.With(PageAt(i)).list == a'.list;
  }

  lemma TurnShape(i: nat)
    requires 6 <= i <= 20
    ensures Shape(SMALL, TurnAt(i).st)
  {
    forall b | 0 <= b < 8 ensures |AreaAt(i).blocks[b]| == 3 {
    }
  }

  lemma TurnAtGoes(i: nat)
    requires 6 <= i < 20
    ensures Leads(SMALL, TurnAt(i), Write(PageAt(i)), TurnAt(i + 1))
  {
    AreaGoes(i);
    assert PageAt(i + 2) == PageAt(i) && VbnAt(i + 2) == VbnAt(i);
    TurnLeads(PageAt(i), PageAt(i + 1), VbnAt(i), VbnAt(i + 1), AreaAt(i), PaceAt(i), PaceAt(i + 1));
  }

  lemma ReachesTurn(all: seq<Command>, i: nat)
    requires 6 <= i <= 20 && Begins(all, i)
    ensures UpTo(all, i, TurnAt(i))
  {
    ReachesAt6(all);
    forall k: nat | 6 <= k < i ensures Leads(SMALL, TurnAt(k), all[k], TurnAt(k + 1)) {
      assert all[k] == WriteAt(k) == Write(PageAt(k));
      TurnAtGoes(k);
    }
    GoesFar(SMALL, First(), all, TurnAt, 6, i);
  }
}
