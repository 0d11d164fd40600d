/** The table that the PMT cache, the global translation directory and flash hold together. */
module PmtTable {
  import opened Arith
  import opened PmtStamps
  import opened PmtEntries
  import opened PmtMoves

  // ---- flash and the directory ------------------------------------------------------------------------

  /** Where the directory says that a PMT page is; a number of 0 means that it has never been written. */
  datatype Vsp = Vsp(bank: nat, vspn: nat)

  /** A command that a bank is busy with, and whether the PMT thread issued it. */
  datatype Command =
    | Read(vpn: nat, sp: nat, forPmt: bool)
    | Program(vpn: nat, data: seq<Page>, forPmt: bool)

  type Flash = map<(nat, nat), seq<Page>>
  type Busy = map<nat, Command>

  function VpnOf(vspn: nat, batch: nat): nat { if batch == 0 then 0 else vspn / batch }

  function SpOf(vspn: nat, batch: nat): nat { if batch == 0 then 0 else vspn % batch }

  lemma VspnParts(vpn: nat, sp: nat, batch: nat)
    requires sp < batch
    ensures VpnOf(vpn * batch + sp, batch) == vpn && SpOf(vpn * batch + sp, batch) == sp
    ensures vpn > 0 ==> vpn * batch + sp > 0
  {
    DivUnique(vpn * batch + sp, batch, vpn, sp);
    if vpn > 0 {
      MulAtLeast(vpn, batch);
    }
  }

  ghost predicate Programs(busy: Busy, b: nat, v: nat) { b in busy && busy[b].Program? && busy[b].vpn == v }

  /** What page v of bank b holds once its bank has done what it is doing. */
  ghost function Settled(flash: Flash, busy: Busy, b: nat, v: nat): seq<Page> {
    if Programs(busy, b, v) then busy[b].data else if (b, v) in flash then flash[(b, v)] else []
  }

  function Sub(data: seq<Page>, sp: nat): Page { if sp < |data| then data[sp] else [] }

  function Zeros(words: nat): Page { seq(words, i => 0) }

  /** The PMT page that the directory leads to. */
  ghost function Backing(gtd: seq<Vsp>, flash: Flash, busy: Busy, batch: nat, words: nat, k: nat): Page
    requires k < |gtd|
  {
    if gtd[k].vspn == 0 then Zeros(words)
    else Sub(Settled(flash, busy, gtd[k].bank, VpnOf(gtd[k].vspn, batch)), SpOf(gtd[k].vspn, batch))
  }

  ghost function Back(gtd: seq<Vsp>, flash: Flash, busy: Busy, batch: nat, words: nat): (back: seq<Page>)
    ensures |back| == |gtd|
  {
    seq(|gtd|, k requires 0 <= k < |gtd| => Backing(gtd, flash, busy, batch, words, k))
  }

  /** A page of flash that other threads cannot write: it has been handed out, and not to them. */
  ghost predicate Owned(b: nat, v: nat, handed: set<(nat, nat)>, reserved: set<(nat, nat)>) {
    (b, v) in handed && (b, v) !in reserved
  }

  /** Everything on flash has been handed out by the allocator, and the directory leads to pages of its own. */
  ghost predicate GtdOk(gtd: seq<Vsp>, batch: nat, handed: set<(nat, nat)>, reserved: set<(nat, nat)>) {
    forall k {:trigger Owned(gtd[k].bank, VpnOf(gtd[k].vspn, batch), handed, reserved)}
        | 0 <= k < |gtd| && gtd[k].vspn != 0 ::
      Owned(gtd[k].bank, VpnOf(gtd[k].vspn, batch), handed, reserved)
  }

  /** A bank has finished a command. */
  ghost function Landed(flash: Flash, busy: Busy, b: nat): Flash
    requires b in busy
  {
    if busy[b].Program? then flash[(b, busy[b].vpn) := busy[b].data] else flash
  }

  lemma FinishKeepsBack(gtd: seq<Vsp>, flash: Flash, busy: Busy, batch: nat, words: nat, b: nat)
    requires b in busy
    ensures Back(gtd, Landed(flash, busy, b), busy - {b}, batch, words) == Back(gtd, flash, busy, batch, words)
  {
    forall c, v ensures Settled(Landed(flash, busy, b), busy - {b}, c, v) == Settled(flash, busy, c, v) {
    }
  }

  /** A command of another thread does not change what the directory leads to. */
  lemma OthersKeepBack(gtd: seq<Vsp>, flash: Flash, busy: Busy, batch: nat, words: nat, b: nat, c: Command,
                       handed: set<(nat, nat)>, reserved: set<(nat, nat)>)
    requires GtdOk(gtd, batch, handed, reserved) && b !in busy
    requires c.Program? ==> !Owned(b, c.vpn, handed, reserved)
    ensures Back(gtd, flash, busy[b := c], batch, words) == Back(gtd, flash, busy, batch, words)
  {
    forall k | 0 <= k < |gtd|
      ensures Backing(gtd, flash, busy[b := c], batch, words, k) == Backing(gtd, flash, busy, batch, words, k)
    {
      if gtd[k].vspn != 0 {
        assert Owned(gtd[k].bank, VpnOf(gtd[k].vspn, batch), handed, reserved);
      }
    }
  }

  /** The directory after a flush: page keys[i] is in sub-page i of page vpn. */
  ghost predicate Redirected(gtd: seq<Vsp>, gtd': seq<Vsp>, keys: seq<nat>, b: nat, vpn: nat, batch: nat) {
    && |gtd'| == |gtd|
    && (forall k | 0 <= k < |gtd| && k !in keys :: gtd'[k] == gtd[k])
    && (forall i | 0 <= i < |keys| :: keys[i] < |gtd| && gtd'[keys[i]] == Vsp(b, vpn * batch + i))
  }

  /** The backing after a flush. */
  ghost predicate Rewritten(back: seq<Page>, back': seq<Page>, keys: seq<nat>, buf: seq<Page>) {
    && |back'| == |back| && |buf| == |keys|
    && (forall k | 0 <= k < |back| && k !in keys :: back'[k] == back[k])
    && (forall i | 0 <= i < |keys| :: keys[i] < |back| && back'[keys[i]] == buf[i])
  }

  lemma FlushRewrites(gtd: seq<Vsp>, gtd': seq<Vsp>, flash: Flash, busy: Busy, batch: nat, words: nat, keys: seq<nat>,
                      buf: seq<Page>, b: nat, vpn: nat, handed: set<(nat, nat)>, reserved: set<(nat, nat)>)
    requires Redirected(gtd, gtd', keys, b, vpn, batch) && |keys| == |buf| == batch && vpn > 0
    requires GtdOk(gtd, batch, handed, reserved) && b !in busy && (b, vpn) !in handed && reserved <= handed
    ensures Rewritten(Back(gtd, flash, busy, batch, words),
      Back(gtd', flash, busy[b := Program(vpn, buf, true)], batch, words), keys, buf)
    ensures GtdOk(gtd', batch, handed + {(b, vpn)}, reserved)
  {
    var busy' := busy[b := Program(vpn, buf, true)];
    forall k | 0 <= k < |gtd| && k !in keys
      ensures Backing(gtd', flash, busy', batch, words, k) == Backing(gtd, flash, busy, batch, words, k)
      ensures gtd'[k].vspn != 0 ==> Owned(gtd'[k].bank, VpnOf(gtd'[k].vspn, batch), handed + {(b, vpn)}, reserved)
    {
      if gtd[k].vspn != 0 {
        assert Owned(gtd[k].bank, VpnOf(gtd[k].vspn, batch), handed, reserved);
      }
    }
    forall i | 0 <= i < |keys|
      ensures Backing(gtd', flash, busy', batch, words, keys[i]) == buf[i]
      ensures Owned(b, VpnOf(gtd'[keys[i]].vspn, batch), handed + {(b, vpn)}, reserved)
    {
      VspnParts(vpn, i, batch);
    }
    forall k | 0 <= k < |gtd'| && gtd'[k].vspn != 0
      ensures Owned(gtd'[k].bank, VpnOf(gtd'[k].vspn, batch), handed + {(b, vpn)}, reserved)
    {
      if k in keys {
        var i :| 0 <= i < |keys| && keys[i] == k;
      }
    }
  }

  // ---- the cache over it ------------------------------------------------------------------------------

  predicate IsLoading(es: Entries, k: nat) { k in es && es[k].stamp == LOADING_STAMP }

  predicate IsLoaded(es: Entries, k: nat) { k in es && es[k].stamp != LOADING_STAMP }

  /** What the PMT says, whatever is cached at the moment. */
  ghost function Table(es: Entries, back: seq<Page>): (table: seq<Page>)
    ensures |table| == |back|
  {
    seq(|back|, k requires 0 <= k < |back| => if IsLoaded(es, k) then es[k].page else back[k])
  }

  ghost predicate CleanAt(es: Entries, back: seq<Page>, k: nat) {
    k in es && k < |back| && (es[k].dirty || es[k].page == back[k])
  }

  function WithWord(p: Page, off: nat, v: nat): Page
    requires off < |p|
  {
    p[off := v]
  }

  /** A page in the cache that differs from what the directory leads to is marked dirty. */
  ghost predicate Clean(es: Entries, back: seq<Page>) {
    forall k: nat {:trigger CleanAt(es, back, k)} | IsLoaded(es, k) :: CleanAt(es, back, k)
  }

  /** Only time stamps and fix counts may differ, and pages may have become dirty. */
  ghost predicate SamePages(es: Entries, fs: Entries) {
    && fs.Keys == es.Keys
    && forall k | k in es ::
         fs[k].page == es[k].page && (IsLoading(fs, k) <==> IsLoading(es, k)) && (es[k].dirty ==> fs[k].dirty)
  }

  lemma SamePagesSameTable(es: Entries, fs: Entries, back: seq<Page>)
    requires SamePages(es, fs) && Clean(es, back)
    ensures Table(fs, back) == Table(es, back) && Clean(fs, back)
  {
    forall k: nat | IsLoaded(fs, k) ensures CleanAt(fs, back, k) {
      assert IsLoaded(es, k) && CleanAt(es, back, k);
    }
  }

  lemma LookUpSamePages(es: Entries, fs: Entries, k: nat)
    requires k in es && LookedUp(es, fs, k)
    ensures SamePages(es, fs)
  {
  }

  lemma BecameSamePages(es: Entries, fs: Entries, k: nat, fixes: nat, dirty: bool)
    requires k in es && Became(es, fs, k, fixes, dirty, es[k].page) && (es[k].dirty ==> dirty)
    requires IsLoading(fs, k) <==> IsLoading(es, k)
    ensures SamePages(es, fs)
  {
  }

  /** Eviction loses nothing: what it drops is clean. */
  lemma EvictSameTable(es: Entries, fs: Entries, back: seq<Page>)
    requires Evicting(es, fs) && Clean(es, back)
    ensures Table(fs, back) == Table(es, back) && Clean(fs, back)
  {
    forall k: nat | k < |back| ensures Table(fs, back)[k] == Table(es, back)[k] {
      if k in es && k !in fs {
        assert IsLoaded(es, k) && CleanAt(es, back, k);
      }
    }
    forall k: nat | IsLoaded(fs, k) ensures CleanAt(fs, back, k) {
      assert IsLoaded(es, k) && CleanAt(es, back, k);
    }
  }

  /** A flush loses nothing: what leaves the cache is on its way to flash. */
  lemma FlushSameTable(es: Entries, fs: Entries, keys: seq<nat>, buf: seq<Page>, back: seq<Page>, back': seq<Page>)
    requires Flushed(es, fs, keys, buf) && Rewritten(back, back', keys, buf) && Clean(es, back)
    ensures Table(fs, back') == Table(es, back) && Clean(fs, back')
  {
    forall k: nat | k < |back| ensures Table(fs, back')[k] == Table(es, back)[k] {
      if k in keys {
        var i :| 0 <= i < |keys| && keys[i] == k;
        assert EvictedIn(es, keys[i]);
      }
    }
    forall k: nat | IsLoaded(fs, k) ensures CleanAt(fs, back', k) {
      assert IsLoaded(es, k) && k !in keys && CleanAt(es, back, k);
    }
  }

  lemma PutSameTable(es: Entries, k: nat, e: Entry, back: seq<Page>)
    requires k !in es && e.stamp == LOADING_STAMP && Clean(es, back)
    ensures Table(es[k := e], back) == Table(es, back) && Clean(es[k := e], back)
  {
    var fs := es[k := e];
    forall j: nat | IsLoaded(fs, j) ensures CleanAt(fs, back, j) {
      assert IsLoaded(es, j) && CleanAt(es, back, j);
    }
  }

  /** A loading page has got its content, and then becomes normal. */
  lemma LoadSameTable(es: Entries, fs: Entries, gs: Entries, k: nat, back: seq<Page>)
    requires IsLoading(es, k) && k < |back| && fs == es[k := es[k].(page := back[k])]
    requires Touched(fs, gs, k) && SameData(fs[k], gs[k]) && Clean(es, back)
    ensures Table(gs, back) == Table(es, back) && Clean(gs, back)
  {
    forall j: nat | IsLoaded(gs, j) ensures CleanAt(gs, back, j) {
      if j != k {
        assert IsLoaded(es, j) && CleanAt(es, back, j);
      }
    }
  }

  lemma WriteTable(es: Entries, fs: Entries, k: nat, p: Page, fixes: nat, back: seq<Page>)
    requires IsLoaded(es, k) && Became(es, fs, k, fixes, true, p) && IsLoaded(fs, k) && Clean(es, back)
    ensures k < |back| && Table(fs, back) == Table(es, back)[k := p] && Clean(fs, back)
  {
    assert CleanAt(es, back, k);
    forall j: nat | IsLoaded(fs, j) ensures CleanAt(fs, back, j) {
      assert IsLoaded(es, j) && CleanAt(es, back, j);
    }
  }

  // ---- addressing the table by logical page --------------------------------------------------------------

  /** pmt_get_index and pmt_get_offset, with per logical pages to a PMT page and batch sub-pages to a logical page. */
  function IndexOf(lpn: nat, per: nat): nat { if per == 0 then 0 else lpn / per }

  function OffsetOf(lpn: nat, sp: nat, per: nat, batch: nat): nat { if per == 0 then 0 else (lpn % per) * batch + sp }

  ghost predicate InTable(table: seq<Page>, lpn: nat, sp: nat, per: nat, batch: nat) {
    IndexOf(lpn, per) < |table| && OffsetOf(lpn, sp, per, batch) < |table[IndexOf(lpn, per)]|
  }

  /** Updating the vp of one sub-page leaves the vps of all the others alone. */
  lemma OneVpChanges(table: seq<Page>, per: nat, batch: nat, lpn: nat, sp: nat, v: nat, other: nat, sp': nat)
    requires per > 0 && sp < batch && sp' < batch && InTable(table, lpn, sp, per, batch)
    requires InTable(table, other, sp', per, batch)
    ensures var k, off := IndexOf(lpn, per), OffsetOf(lpn, sp, per, batch);
      var table', k', off' := table[k := WithWord(table[k], off, v)], IndexOf(other, per),
          OffsetOf(other, sp', per, batch);
      && InTable(table', other, sp', per, batch)
      && table'[k'][off'] == if other == lpn && sp' == sp then v else table[k'][off']
  {
    DivUnique(OffsetOf(lpn, sp, per, batch), batch, lpn % per, sp);
    DivUnique(OffsetOf(other, sp', per, batch), batch, other % per, sp');
    assert lpn == IndexOf(lpn, per) * per + lpn % per && other == IndexOf(other, per) * per + other % per;
  }
}
