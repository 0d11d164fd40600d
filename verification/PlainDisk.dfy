/** The disk the host believes in: one flat array of sectors, and how pages of it are laid over it. */
module PlainDisk {
  import opened Sectors
  import opened Arith
  import opened GreedyState

  ghost predicate Paged(g: Geometry, d: seq<seq<Sector>>) {
    && g.sects >= 1 && |d| == g.lpages
    && forall l | 0 <= l < |d| :: |d[l]| == g.sects
  }

  lemma DiskIsPaged(s: State)
    requires Shape(s) && MapOk(s)
    ensures Paged(s.g, Disk(s))
  {
    forall l: nat | l < s.g.lpages ensures |Disk(s)[l]| == s.g.sects {
      assert Map(s, l) != 0 ==> Mapped(s, l);
    }
  }

  function Capacity(g: Geometry): nat { g.lpages * g.sects }

  lemma InRange(g: Geometry, a: nat)
    requires g.sects >= 1 && a < Capacity(g)
    ensures a / g.sects < g.lpages && a % g.sects < g.sects
  {
    if a / g.sects >= g.lpages {
      Grows(g.lpages, a / g.sects, g.sects);
    }
  }

  /** A sector below the capacity lies in one of the logical pages. */
  lemma LpnInRange(g: Geometry, lpn: nat, offset: nat)
    requires lpn * g.sects + offset < Capacity(g)
    ensures lpn < g.lpages
  {
    if g.lpages <= lpn {
      Grows(g.lpages, lpn, g.sects);
    }
  }

  /** Sector at of the disk is sector offset of page lpn. */
  ghost predicate Cursor(g: Geometry, at: nat, lpn: nat, offset: nat) {
    lpn * g.sects + offset == at && offset < g.sects
  }

  lemma CursorStart(g: Geometry, at: nat)
    requires g.sects >= 1
    ensures Cursor(g, at, at / g.sects, at % g.sects)
  {
  }

  lemma SliceAppend(s: seq<Sector>, lo: nat, mid: nat, count: nat)
    requires lo <= mid && mid + count <= |s|
    ensures s[lo..mid] + s[mid..mid + count] == s[lo..mid + count]
  {
  }

  /** After the part of a request that fits in its page, the rest starts at the next page. */
  lemma CursorAfter(g: Geometry, at: nat, lpn: nat, offset: nat, count: nat, remaining: nat)
    requires Cursor(g, at, lpn, offset)
    requires count == if offset + remaining < g.sects then remaining else g.sects - offset
    ensures count < remaining ==> Cursor(g, at + count, lpn + 1, 0)
  {
    if count < remaining {
      assert (lpn + 1) * g.sects == lpn * g.sects + g.sects;
    }
  }

  /** Nothing is overlaid at first, and everything at last. */
  lemma OverlayEnds(base: seq<Sector>, at: nat, data: seq<Sector>)
    requires at + |data| <= |base|
    ensures Overlay(base, at, data[..0]) == base && data[..|data|] == data
  {
  }


  lemma OverlayNext(base: seq<Sector>, at: nat, data: seq<Sector>, done: nat, count: nat)
    requires done + count <= |data| && at + |data| <= |base|
    ensures Overlay(Overlay(base, at, data[..done]), at + done, data[done..done + count])
            == Overlay(base, at, data[..done + count])
  {
  }

  /** Sector a of the disk is sector a mod S of page a div S. */
  ghost function Flat(g: Geometry, d: seq<seq<Sector>>): (f: seq<Sector>)
    requires Paged(g, d)
    ensures |f| == Capacity(g)
  {
    seq(Capacity(g), a requires 0 <= a < Capacity(g) => InRange(g, a); d[a / g.sects][a % g.sects])
  }

  /** The sectors data laid over a sequence of sectors from position at. */
  function Overlay(base: seq<Sector>, at: nat, data: seq<Sector>): (r: seq<Sector>)
    requires at + |data| <= |base|
    ensures |r| == |base|
    ensures forall i | 0 <= i < |r| :: r[i] == if at <= i < at + |data| then data[i - at] else base[i]
  {
    base[..at] + data + base[at + |data|..]
  }

  lemma FlatAt(g: Geometry, d: seq<seq<Sector>>, l: nat, o: nat)
    requires Paged(g, d) && l < g.lpages && o < g.sects
    ensures l * g.sects + o < Capacity(g)
    ensures Flat(g, d)[l * g.sects + o] == d[l][o]
  {
    Grows(l + 1, g.lpages, g.sects);
    assert (l + 1) * g.sects == l * g.sects + g.sects;
    DivUnique(l * g.sects + o, g.sects, l, o);
  }

  lemma FlatOverlayAt(g: Geometry, d: seq<seq<Sector>>, e: seq<seq<Sector>>, l: nat, off: nat, data: seq<Sector>,
                      a: nat)
    requires Paged(g, d) && l < g.lpages && off + |data| <= g.sects
    requires e == d[l := Overlay(d[l], off, data)] && Paged(g, e) && a < Capacity(g)
    ensures Flat(g, e)[a] == if l * g.sects + off <= a < l * g.sects + off + |data|
                             then data[a - (l * g.sects + off)] else Flat(g, d)[a]
  {
    InRange(g, a);
    SamePage(g, l, a / g.sects, a % g.sects, a);
  }

  /** Overlaying one page is overlaying the flat disk at that page's place. */
  lemma FlatOverlay(g: Geometry, d: seq<seq<Sector>>, l: nat, off: nat, data: seq<Sector>)
    requires Paged(g, d) && l < g.lpages && off + |data| <= g.sects
    ensures l * g.sects + off + |data| <= Capacity(g)
    ensures Paged(g, d[l := Overlay(d[l], off, data)])
    ensures Flat(g, d[l := Overlay(d[l], off, data)]) == Overlay(Flat(g, d), l * g.sects + off, data)
  {
    var e := d[l := Overlay(d[l], off, data)];
    Grows(l + 1, g.lpages, g.sects);
    assert (l + 1) * g.sects == l * g.sects + g.sects;
    var left, right := Flat(g, e), Overlay(Flat(g, d), l * g.sects + off, data);
    forall a: nat | a < Capacity(g) ensures left[a] == right[a] {
      FlatOverlayAt(g, d, e, l, off, data, a);
    }
  }

  lemma SamePage(g: Geometry, l: nat, k: nat, o: nat, a: nat)
    requires g.sects >= 1 && a == k * g.sects + o && o < g.sects
    ensures l * g.sects <= a < l * g.sects + g.sects <==> k == l
  {
    if k < l { Grows(k + 1, l, g.sects); assert (k + 1) * g.sects == k * g.sects + g.sects; }
    if l < k { Grows(l + 1, k, g.sects); assert (l + 1) * g.sects == l * g.sects + g.sects; }
  }

  /** Reading within one page is reading the flat disk at that page's place. */
  lemma FlatSlice(g: Geometry, d: seq<seq<Sector>>, l: nat, off: nat, n: nat)
    requires Paged(g, d) && l < g.lpages && off + n <= g.sects
    ensures l * g.sects + off + n <= Capacity(g)
    ensures d[l][off..off + n] == Flat(g, d)[l * g.sects + off..l * g.sects + off + n]
  {
    Grows(l + 1, g.lpages, g.sects);
    assert (l + 1) * g.sects == l * g.sects + g.sects;
    var left, right := d[l][off..off + n], Flat(g, d)[l * g.sects + off..l * g.sects + off + n];
    forall i: nat | i < n ensures left[i] == right[i] {
      FlatAt(g, d, l, off + i);
    }
  }

  /** A host command; the sector count of a write is the length of its data. */
  datatype Command = Read(lba: nat, count: nat) | Write(lba: nat, data: seq<Sector>)

  predicate InBounds(size: nat, c: Command) {
    match c
    case Read(lba, count) => lba + count <= size
    case Write(lba, data) => lba + |data| <= size
  }

  predicate AllInBounds(size: nat, commands: seq<Command>) {
    forall i | 0 <= i < |commands| :: InBounds(size, commands[i])
  }

  /** What a plain array of sectors answers to a sequence of commands, one answer for each read. */
  function Answers(disk: seq<Sector>, commands: seq<Command>): seq<seq<Sector>>
    requires AllInBounds(|disk|, commands)
    decreases |commands|
  {
    if commands == [] then [] else
    match commands[0]
    case Read(lba, count) => [disk[lba..lba + count]] + Answers(disk, commands[1..])
    case Write(lba, data) => Answers(Overlay(disk, lba, data), commands[1..])
  }

  /** The part of the answers that one command gives, and the disk it leaves. */
  function AnswerOf(disk: seq<Sector>, c: Command): (seq<seq<Sector>>, seq<Sector>)
    requires InBounds(|disk|, c)
  {
    match c
    case Read(lba, count) => ([disk[lba..lba + count]], disk)
    case Write(lba, data) => ([], Overlay(disk, lba, data))
  }

  /** One step of Answers, from position i of a longer sequence. */
  lemma {:induction false} AnswersFrom(disk: seq<Sector>, commands: seq<Command>, i: nat)
    requires i < |commands| && AllInBounds(|disk|, commands) && InBounds(|disk|, commands[i])
    ensures var (answer, next) := AnswerOf(disk, commands[i]);
      |next| == |disk| && Answers(disk, commands[i..]) == answer + Answers(next, commands[i + 1..])
  {
    assert commands[i..][0] == commands[i] && commands[i..][1..] == commands[i + 1..];
  }

  /** The number of reads among some commands. */
  function Reads(commands: seq<Command>): nat {
    if commands == [] then 0 else Reads(commands[1..]) + if commands[0].Read? then 1 else 0
  }

  lemma {:induction false} OneEach(disk: seq<Sector>, commands: seq<Command>)
    requires AllInBounds(|disk|, commands)
    ensures |Answers(disk, commands)| == Reads(commands)
    decreases |commands|
  {
    if commands == [] {
    } else {
      AnswersFrom(disk, commands, 0);
      assert commands[0..] == commands && InBounds(|disk|, commands[0]);
      OneEach(AnswerOf(disk, commands[0]).1, commands[1..]);
    }
  }

  predicate WritesTo(c: Command, a: nat) { c.Write? && c.lba <= a < c.lba + |c.data| }

  /** What the last of some writes to sector a has left there. */
  function LastAt(disk: seq<Sector>, commands: seq<Command>, a: nat): Sector
    requires a < |disk|
  {
    if commands == [] then disk[a]
    else
      var c, before := commands[|commands| - 1], commands[..|commands| - 1];
      if WritesTo(c, a) then c.data[a - c.lba] else LastAt(disk, before, a)
  }

  lemma {:induction false} LastFromFirst(disk: seq<Sector>, commands: seq<Command>, a: nat)
    requires 0 < |commands| && a < |disk| && InBounds(|disk|, commands[0])
    ensures LastAt(disk, commands, a) == LastAt(AnswerOf(disk, commands[0]).1, commands[1..], a)
  {
    var n := |commands| - 1;
    if n == 0 {
    } else {
      LastFromFirst(disk, commands[..n], a);
      assert commands[..n][1..] == commands[1..][..n - 1] && commands[1..][n - 1] == commands[n];
    }
  }

  /** There is one answer for each read, in its place: the sectors that the last writes before it have left. */
  lemma {:induction false} AnswersInOrder(disk: seq<Sector>, commands: seq<Command>, i: nat, a: nat)
    requires AllInBounds(|disk|, commands) && i < |commands| && commands[i].Read?
    requires commands[i].lba <= a < commands[i].lba + commands[i].count && a < |disk|
    ensures var answers, k := Answers(disk, commands), Reads(commands[..i]);
      k < |answers| && |answers[k]| == commands[i].count &&
      answers[k][a - commands[i].lba] == LastAt(disk, commands[..i], a)
    decreases i
  {
    AnswersFrom(disk, commands, 0);
    assert commands[0..] == commands && InBounds(|disk|, commands[0]);
    if i == 0 {
      assert commands[..0] == [];
    } else {
      var next, rest := AnswerOf(disk, commands[0]).1, commands[1..];
      assert commands[..i][1..] == rest[..i - 1] && commands[..i][0] == commands[0];
      assert forall j | 0 <= j < |rest| :: rest[j] == commands[j + 1];
      AnswersInOrder(next, rest, i - 1, a);
      LastFromFirst(disk, commands[..i], a);
    }
  }
}
