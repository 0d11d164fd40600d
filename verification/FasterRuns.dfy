/** Whole runs of the FASTer FTL: what each host command does, when the FTL merges, and when an assertion of the code
    fails. */
module FasterRuns {
  import opened Sectors
  import opened FasterState
  import opened FasterTurns
  import opened FasterWrite
  import opened FasterSteps
  import opened FasterAfter
  import opened FasterDisk

  // ---- where a page is written --------------------------------------------------------------------------------------

  /** The ways to write a page: the next in the sequential log block, the start of a new stream there, or at random. */
  datatype LogKind = Append | Detect | Random

  const THRESHOLD: nat := 4          // COR_REF_THRESHOLD

  /** The counts that decide when the FTL merges between writes. */
  datatype Pace = Pace(
    writes: nat,                     // write_before_pmerge
    trigger: nat,                    // pmerge_trigger
    interval: nat,                   // pmerge_interval
    base: nat,                       // base_pmerge_interval
    raised: bool)                    // g_inc_pmerge_interval_flag

  /** What the FTL has in memory and flash before a command: corrPage is the page that was checked last for a stream of
      its own, and corrCount the length of the stream so far. */
  datatype Moment = Moment(st: State, corrPage: Pg, corrCount: nat, pace: Pace)

  /** get_next_data_lpn, with one bank: INVALID is the greatest number, and the one after it is page 0. */
  function NextPage(g: Geometry, d: Pg): Pg {
    if d == NOWHERE then Pg(0, 0) else if d.o + 1 < g.pages then Pg(d.b, d.o + 1) else Pg(d.b + 1, 0)
  }

  function KindOf(g: Geometry, now: Moment, d: Pg): LogKind {
    if now.st.swLbn == d.b then (if now.st.swNext == d.o then Append else Random)
    else if d == NextPage(g, now.corrPage) && now.corrCount > THRESHOLD then Detect
    else Random
  }

  /** What the FTL remembers of the page that it was asked to write: a page after the last one makes the stream longer,
      and any other page begins a new one. */
  function WithStream(g: Geometry, now: Moment, d: Pg): Moment {
    if now.st.swLbn == d.b then (if now.st.swNext == d.o then now.(corrPage := d) else now)
    else if d != NextPage(g, now.corrPage) then now.(corrPage := d, corrCount := 1)
    else now.(corrPage := d, corrCount := if now.corrCount > THRESHOLD then now.corrCount else now.corrCount + 1)
  }

  /** prepare_to_new_write. */
  ghost function Prepared(g: Geometry, now: Moment, d: Pg): (r: State)
    requires Shape(g, now.st) && IsPage(g, d)
    ensures Shape(g, r) && r.vt == now.st.vt
  {
    match KindOf(g, now, d)
    case Append => now.st
    case Detect => Streamed(g, if now.st.swLbn < g.datas then SwMerged(g, now.st) else now.st, d.b, d.o)
    case Random => Assigned(g, now.st)
  }

  /** The log page that it returns. */
  ghost function Target(g: Geometry, now: Moment, d: Pg): Pg
    requires Shape(g, now.st) && IsPage(g, d)
  {
    if KindOf(g, now, d) == Random then Prepared(g, now, d).cur else Pg(0, d.o)
  }

  /** The page has been written to the log area, and a sequential log block that is full has been merged. */
  ghost function Stored(g: Geometry, now: Moment, d: Pg, data: Data): (r: State)
    requires Shape(g, now.st) && IsPage(g, d)
    ensures Shape(g, r) && r.vt == now.st.vt
  {
    var e := Target(g, now, d);
    if e.o >= g.pages then now.st
    else
      var s := Written(g, Prepared(g, now, d), d, e, data);
      if s.swNext == g.pages && s.swLbn < g.datas then SwMerged(g, s) else s
  }

  // ---- when the FTL merges ------------------------------------------------------------------------------------------

  /** g_gc_flag: a block has been collected, or the sequential log block has been merged. */
  predicate IsBusy(g: Geometry, now: Moment, d: Pg) {
    match KindOf(g, now, d)
    case Random => now.st.cur.o + 2 == g.pages && now.st.rwFree == 1
    case _ => d.o + 1 == g.pages
  }

  /** A full merge is due: nearly all isolation blocks are in use, or some are and it is time. */
  predicate IsDue(g: Geometry, p: Pace, free: int, random: bool) {
    free <= RESERVED || (g.isols - 1 > free && random && p.trigger + 1 >= 2 * p.interval)
  }

  function Counted(g: Geometry, p: Pace, free: int, random: bool): Pace {
    if free <= RESERVED then p.(raised := true)
    else if g.isols - 1 > free && random
    then p.(trigger := if p.trigger + 1 >= 2 * p.interval then 0 else p.trigger + 1)
    else p
  }

  /** The interval is adjusted after a number of writes. */
  function Tuned(g: Geometry, p: Pace, free: int): Pace {
    if p.writes < g.logs * g.pages / 8 || free >= g.isols then p
    else
      var base := if p.base < 2 then g.pages / 4 else p.base;
      if free > g.isols - 2 then p.(base := base, interval := p.interval + 1, writes := 0)
      else if !p.raised then p.(base := base, writes := 0)
      else
        var less := if base > 1 then base - 1 else base;
        p.(base := less, interval := less, raised := false, writes := 0)
  }

  // ---- a command ----------------------------------------------------------------------------------------------------

  ghost function PutData(g: Geometry, now: Moment, c: Command): Data
    requires c.Put?
  {
    Splice(g, Resolve(g, now.st, c.d), c.offset, c.sectors)
  }

  /** A full merge is due after the page has been written. */
  ghost predicate Merges(g: Geometry, now: Moment, c: Command)
    requires Shape(g, now.st) && IsPage(g, c.d) && c.Put?
  {
    !IsBusy(g, now, c.d)
    && IsDue(g, now.pace, Stored(g, now, c.d, PutData(g, now, c)).isolFree, KindOf(g, now, c.d) == Random)
  }

  /** The assertions of the code hold throughout the command, and the isolation area does not overflow. */
  ghost predicate Accepts(g: Geometry, now: Moment, c: Command)
    requires Shape(g, now.st) && IsPage(g, c.d)
  {
    c.Put? ==>
      && (KindOf(g, now, c.d) == Random ==> CanAssign(g, now.st))
      && (Merges(g, now, c) ==> CanMerge(g, Stored(g, now, c.d, PutData(g, now, c))))
  }

  /** What a command makes of it all. */
  ghost function Next(g: Geometry, now: Moment, c: Command): (r: Moment)
    requires Shape(g, now.st) && IsPage(g, c.d)
    ensures Shape(g, r.st)
  {
    if c.Get? then now
    else
      var random, busy := KindOf(g, now, c.d) == Random, IsBusy(g, now, c.d);
      var stored, p := Stored(g, now, c.d, PutData(g, now, c)), now.pace.(writes := now.pace.writes + 1);
      var s := if Merges(g, now, c) then FullyMerged(g, stored) else stored;
      var q := if busy then p else Counted(g, p, stored.isolFree, random);
      WithStream(g, now, c.d).(st := s, pace := Tuned(g, q, s.isolFree))
  }

  /** The parts of a write, one after the other. */
  lemma NextIs(g: Geometry, now: Moment, c: Command, stored: State, p: Pace, s: State, q: Pace)
    requires Shape(g, now.st) && IsPage(g, c.d) && c.Put? && stored == Stored(g, now, c.d, PutData(g, now, c))
    requires p == now.pace.(writes := now.pace.writes + 1)
    requires var random, busy := KindOf(g, now, c.d) == Random, IsBusy(g, now, c.d);
      && s == (if !busy && IsDue(g, p, stored.isolFree, random) then FullyMerged(g, stored) else stored)
      && q == if busy then p else Counted(g, p, stored.isolFree, random)
    ensures Merges(g, now, c) <==>
      !IsBusy(g, now, c.d) && IsDue(g, p, stored.isolFree, KindOf(g, now, c.d) == Random)
    ensures Next(g, now, c) == WithStream(g, now, c.d).(st := s, pace := Tuned(g, q, s.isolFree))
  {
  }

  /** The run of some commands: the moment after them, if all are accepted. */
  ghost function RunOf(g: Geometry, start: Moment, commands: seq<Command>): (r: Option<Moment>)
    requires Shape(g, start.st) && forall c <- commands :: CommandOk(g, c)
    ensures r.Some? ==> Shape(g, r.value.st)
  {
    if commands == [] then Some(start)
    else
      var before, c := RunOf(g, start, commands[..|commands| - 1]), commands[|commands| - 1];
      assert CommandOk(g, c);
      if before.Some? && Accepts(g, before.value, c) then Some(Next(g, before.value, c)) else None
  }

  /** The command is accepted, and leads from one moment to the next. */
  ghost predicate Leads(g: Geometry, now: Moment, c: Command, next: Moment) {
    && Shape(g, now.st) && Shape(g, next.st) && CommandOk(g, c) && Accepts(g, now, c) && Next(g, now, c) == next
  }

  /** The commands are all accepted, and lead to a moment. */
  ghost predicate Reaches(g: Geometry, start: Moment, commands: seq<Command>, now: Moment) {
    && Shape(g, start.st) && Shape(g, now.st) && (forall c <- commands :: CommandOk(g, c))
    && RunOf(g, start, commands) == Some(now)
  }

  /** A run of one more command. */
  lemma RunOn(g: Geometry, start: Moment, commands: seq<Command>, i: nat, now: Moment)
    requires Shape(g, start.st) && i < |commands| && CommandOk(g, commands[i])
    requires Reaches(g, start, commands[..i], now)
    ensures (forall c <- commands[..i + 1] :: CommandOk(g, c)) && Shape(g, now.st)
    ensures RunOf(g, start, commands[..i + 1]) ==
      if Accepts(g, now, commands[i]) then Some(Next(g, now, commands[i])) else None
  {
    assert commands[..i + 1][..i] == commands[..i];
  }

  lemma Goes(g: Geometry, start: Moment, commands: seq<Command>, i: nat, now: Moment, next: Moment)
    requires i < |commands| && Reaches(g, start, commands[..i], now) && Leads(g, now, commands[i], next)
    ensures Reaches(g, start, commands[..i + 1], next)
  {
    RunOn(g, start, commands, i, now);
  }

  /** Many more commands. */
  lemma {:induction false} GoesFar(g: Geometry, start: Moment, commands: seq<Command>, at: nat -> Moment, i: nat,
                                   j: nat)
    requires i <= j <= |commands| && Reaches(g, start, commands[..i], at(i))
    requires forall k: nat | i <= k < j :: Leads(g, at(k), commands[k], at(k + 1))
    ensures Reaches(g, start, commands[..j], at(j))
  {
    if i == j {
    } else {
      GoesFar(g, start, commands, at, i, j - 1);
      Goes(g, start, commands, j - 1, at(j - 1), at(j));
    }
  }

  lemma Stops(g: Geometry, start: Moment, commands: seq<Command>, i: nat, now: Moment)
    requires i < |commands| && Reaches(g, start, commands[..i], now) && CommandOk(g, commands[i])
    requires !Accepts(g, now, commands[i])
    ensures (forall c <- commands[..i + 1] :: CommandOk(g, c)) && RunOf(g, start, commands[..i + 1]) == None
  {
    RunOn(g, start, commands, i, now);
  }

  lemma {:induction false} RunStops(g: Geometry, start: Moment, commands: seq<Command>, n: nat)
    requires Shape(g, start.st) && (forall c <- commands :: CommandOk(g, c)) && n <= |commands|
    requires RunOf(g, start, commands[..n]) == None
    ensures RunOf(g, start, commands) == None
  {
    if n == |commands| {
      assert commands[..n] == commands;
    } else {
      var init := commands[..|commands| - 1];
      assert init[..n] == commands[..n];
      RunStops(g, start, init, n);
    }
  }

  // ---- after an early return ----------------------------------------------------------------------------------------

  /** The victim page stays stuck, and a command that would merge is not accepted. */
  lemma StaysStuck(g: Geometry, now: Moment, c: Command)
    requires Shape(g, now.st) && IsPage(g, c.d) && Stuck(g, now.st) && Accepts(g, now, c)
    ensures Stuck(g, Next(g, now, c).st) && (c.Put? ==> !Merges(g, now, c))
  {
    if c.Put? {
      assert Stuck(g, Stored(g, now, c.d, PutData(g, now, c)));
    }
  }

  /** After a full merge that returned early no full merge succeeds any more: a run goes on only while none is due. */
  lemma {:induction false} NoMergeAnyMore(g: Geometry, start: Moment, commands: seq<Command>, i: nat)
    requires Shape(g, start.st) && (forall c <- commands :: CommandOk(g, c)) && i <= |commands|
    requires RunOf(g, start, commands[..i]).Some? && Stuck(g, RunOf(g, start, commands[..i]).value.st)
    ensures RunOf(g, start, commands).Some? ==> Stuck(g, RunOf(g, start, commands).value.st)
    ensures i < |commands| && RunOf(g, start, commands).Some? ==>
      var before, c := RunOf(g, start, commands[..|commands| - 1]).value, commands[|commands| - 1];
      IsPage(g, c.d) && (c.Put? ==> !Merges(g, before, c))
  {
    if i == |commands| {
      assert commands[..i] == commands;
    } else if RunOf(g, start, commands).Some? {
      var init := commands[..|commands| - 1];
      assert init[..i] == commands[..i] && CommandOk(g, commands[|commands| - 1]);
      NoMergeAnyMore(g, start, init, i);
      StaysStuck(g, RunOf(g, start, init).value, commands[|commands| - 1]);
    }
  }

  // ---- the content --------------------------------------------------------------------------------------------------

  ghost predicate Holds(g: Geometry, commands: seq<Command>, st: State) {
    Inv(g, st) && forall d {:trigger Resolve(g, st, d)} | IsPage(g, d) :: Resolve(g, st, d) == After(g, commands, d)
  }

  lemma PutHolds(g: Geometry, commands: seq<Command>, i: nat, st: State, st': State)
    requires i < |commands| && commands[i].Put? && Holds(g, commands[..i], st) && Inv(g, st')
    requires var c := commands[i]; OnePage(g, st, st', c.d, Splice(g, Resolve(g, st, c.d), c.offset, c.sectors))
    requires IsPage(g, commands[i].d)
    ensures Holds(g, commands[..i + 1], st')
  {
    assert commands[..i + 1][..i] == commands[..i];
  }

  lemma GetHolds(g: Geometry, commands: seq<Command>, i: nat, st: State)
    requires i < |commands| && commands[i].Get? && Holds(g, commands[..i], st)
    ensures Holds(g, commands[..i + 1], st)
  {
    assert commands[..i + 1][..i] == commands[..i];
  }

  /** After the format. */
  function Start(g: Geometry, good: seq<nat>): Moment
    requires |good| == g.datas + g.frees + g.isols + g.used && g.used <= g.logs && 0 < g.pages && 0 < g.used
  {
    Moment(Formatted(g, good), NOWHERE, NONE, Pace(0, 0, g.pages / 4, g.pages / 4, false))
  }
}
