/** The pages that the PMT thread is loading, one on each bank at most, and the commands it waits for. */
module PmtLoads {
  import opened Sets
  import opened PmtStamps
  import opened PmtEntries
  import opened PmtMoves
  import opened PmtTable

  /** Bank b is loading page k from vsp. */
  ghost predicate LoadEntry(es: Entries, gtd: seq<Vsp>, b: nat, k: nat, vsp: Vsp) {
    IsLoading(es, k) && k < |gtd| && gtd[k] == vsp && vsp.bank == b && vsp.vspn != 0
  }

  /** The loading pages in the cache are the ones that the banks are loading. */
  ghost predicate LoadsOk(es: Entries, gtd: seq<Vsp>, loading: seq<nat>, vsps: seq<Vsp>) {
    && |vsps| == |loading|
    && (forall b {:trigger LoadEntry(es, gtd, b, loading[b], vsps[b])} | 0 <= b < |loading| && loading[b] != NULL_PMT ::
          LoadEntry(es, gtd, b, loading[b], vsps[b]))
    && (forall k: nat {:trigger HasBank(gtd, loading, k)} | IsLoading(es, k) :: HasBank(gtd, loading, k))
  }

  ghost predicate HasBank(gtd: seq<Vsp>, loading: seq<nat>, k: nat) {
    k < |gtd| && gtd[k].bank < |loading| && loading[gtd[k].bank] == k
  }

  /** The read for bank b has been issued and is under way. */
  predicate Reading(busy: Busy, vsp: Vsp, b: nat, batch: nat) {
    b in busy && busy[b] == Read(VpnOf(vsp.vspn, batch), SpOf(vsp.vspn, batch), true)
  }

  predicate Programming(busy: Busy, b: nat) { b in busy && busy[b].Program? && busy[b].forPmt }

  /** Until the thread has seen its turn of this pass, a complete bit on a bank it waits for is the end of its own
      command. */
  ghost predicate LoadBank(b: nat, k: nat, vsp: Vsp, buf: Page, busy: Busy, complete: set<nat>, back: seq<Page>,
                           batch: nat, upto: nat)
  {
    k == NULL_PMT || if b < upto || b !in complete then Reading(busy, vsp, b, batch) else k < |back| && buf == back[k]
  }

  predicate FlushBank(b: nat, flushing: bool, busy: Busy, complete: set<nat>, upto: nat) {
    flushing ==> Programming(busy, b) || (upto <= b && b in complete)
  }

  /** The loads, when the thread has looked at the first few banks in this pass. */
  ghost predicate LoadBanks(loading: seq<nat>, vsps: seq<Vsp>, bufs: seq<Page>, busy: Busy, complete: set<nat>,
                            back: seq<Page>, batch: nat, upto: nat)
  {
    && |vsps| == |bufs| == |loading|
    && forall b {:trigger LoadBank(b, loading[b], vsps[b], bufs[b], busy, complete, back, batch, upto)}
         | 0 <= b < |loading| ::
         LoadBank(b, loading[b], vsps[b], bufs[b], busy, complete, back, batch, upto)
  }

  ghost predicate FlushBanks(flushing: seq<bool>, busy: Busy, complete: set<nat>, upto: nat) {
    forall b {:trigger FlushBank(b, flushing[b], busy, complete, upto)} | 0 <= b < |flushing| ::
      FlushBank(b, flushing[b], busy, complete, upto)
  }

  /** The signals of the first few banks are watched. */
  ghost predicate LoadsWatched(loading: seq<nat>, wakeup: set<nat>, upto: nat) {
    forall b | 0 <= b < |loading| && b < upto && loading[b] != NULL_PMT :: b in wakeup
  }

  ghost predicate FlushesWatched(flushing: seq<bool>, wakeup: set<nat>, upto: nat) {
    forall b | 0 <= b < |flushing| && b < upto && flushing[b] :: b in wakeup
  }

  lemma LookAtLoad(loading: seq<nat>, vsps: seq<Vsp>, bufs: seq<Page>, busy: Busy, complete: set<nat>, back: seq<Page>,
                   batch: nat, b: nat)
    requires LoadBanks(loading, vsps, bufs, busy, complete, back, batch, b) && b < |loading|
    ensures loading[b] != NULL_PMT && b in complete ==>
      && loading[b] < |back| && bufs[b] == back[loading[b]]
      && LoadBanks(loading[b := NULL_PMT], vsps, bufs, busy, complete, back, batch, b + 1)
    ensures loading[b] == NULL_PMT || b !in complete ==>
      LoadBanks(loading, vsps, bufs, busy, complete, back, batch, b + 1)
  {
    assert LoadBank(b, loading[b], vsps[b], bufs[b], busy, complete, back, batch, b);
    if loading[b] != NULL_PMT && b in complete {
      var loading' := loading[b := NULL_PMT];
      forall c | 0 <= c < |loading'|
        ensures LoadBank(c, loading'[c], vsps[c], bufs[c], busy, complete, back, batch, b + 1)
      {
        assert c != b ==> LoadBank(c, loading[c], vsps[c], bufs[c], busy, complete, back, batch, b);
      }
    } else {
      forall c | 0 <= c < |loading|
        ensures LoadBank(c, loading[c], vsps[c], bufs[c], busy, complete, back, batch, b + 1)
      {
        assert LoadBank(c, loading[c], vsps[c], bufs[c], busy, complete, back, batch, b);
      }
    }
  }

  lemma LookAtFlush(flushing: seq<bool>, busy: Busy, complete: set<nat>, b: nat)
    requires FlushBanks(flushing, busy, complete, b) && b < |flushing|
    ensures b in complete ==> FlushBanks(flushing[b := false], busy, complete, b + 1)
    ensures !flushing[b] || b !in complete ==> FlushBanks(flushing, busy, complete, b + 1)
  {
    var flushing' := flushing[b := false];
    forall c | 0 <= c < |flushing| ensures FlushBank(c, flushing'[c], busy, complete, b + 1) {
      assert FlushBank(c, flushing[c], busy, complete, b);
    }
    if !flushing[b] || b !in complete {
      forall c | 0 <= c < |flushing| ensures FlushBank(c, flushing[c], busy, complete, b + 1) {
        assert FlushBank(c, flushing[c], busy, complete, b);
      }
    }
  }

  /** A command on an idle bank leaves the loads and flushes under way alone. */
  lemma LoadsUndisturbed(loading: seq<nat>, vsps: seq<Vsp>, bufs: seq<Page>, busy: Busy, complete: set<nat>,
                         back: seq<Page>, batch: nat, b: nat, c: Command, upto: nat)
    requires LoadBanks(loading, vsps, bufs, busy, complete, back, batch, upto) && b !in busy
    ensures LoadBanks(loading, vsps, bufs, busy[b := c], complete, back, batch, upto)
    ensures b < |loading| <= upto ==> loading[b] == NULL_PMT
  {
    forall a | 0 <= a < |loading|
      ensures LoadBank(a, loading[a], vsps[a], bufs[a], busy[b := c], complete, back, batch, upto)
    {
      assert LoadBank(a, loading[a], vsps[a], bufs[a], busy, complete, back, batch, upto);
    }
    if b < |loading| {
      assert LoadBank(b, loading[b], vsps[b], bufs[b], busy, complete, back, batch, upto);
    }
  }

  /** The reads under way do not depend on what the directory leads to now. */
  lemma LoadsStayWaiting(loading: seq<nat>, vsps: seq<Vsp>, bufs: seq<Page>, busy: Busy, complete: set<nat>,
                         back: seq<Page>, back': seq<Page>, batch: nat)
    requires LoadBanks(loading, vsps, bufs, busy, complete, back, batch, |loading|)
    ensures LoadBanks(loading, vsps, bufs, busy, complete, back', batch, |loading|)
  {
    forall a | 0 <= a < |loading|
      ensures LoadBank(a, loading[a], vsps[a], bufs[a], busy, complete, back', batch, |loading|)
    {
      assert LoadBank(a, loading[a], vsps[a], bufs[a], busy, complete, back, batch, |loading|);
    }
  }

  lemma LoadIssued(loading: seq<nat>, vsps: seq<Vsp>, bufs: seq<Page>, busy: Busy, complete: set<nat>, back: seq<Page>,
                   batch: nat, b: nat, k: nat, vsp: Vsp)
    requires LoadBanks(loading, vsps, bufs, busy, complete, back, batch, |loading|) && b !in busy && b < |loading|
    ensures var c := Read(VpnOf(vsp.vspn, batch), SpOf(vsp.vspn, batch), true);
      LoadBanks(loading[b := k], vsps[b := vsp], bufs, busy[b := c], complete, back, batch, |loading|)
  {
    var c := Read(VpnOf(vsp.vspn, batch), SpOf(vsp.vspn, batch), true);
    var loading', vsps' := loading[b := k], vsps[b := vsp];
    forall a | 0 <= a < |loading|
      ensures LoadBank(a, loading'[a], vsps'[a], bufs[a], busy[b := c], complete, back, batch, |loading|)
    {
      assert LoadBank(a, loading[a], vsps[a], bufs[a], busy, complete, back, batch, |loading|);
    }
  }

  lemma FlushesUndisturbed(flushing: seq<bool>, busy: Busy, complete: set<nat>, b: nat, c: Command, upto: nat)
    requires FlushBanks(flushing, busy, complete, upto) && b !in busy && b < |flushing|
    ensures FlushBanks(flushing, busy[b := c], complete, upto)
    ensures c.Program? && c.forPmt ==> FlushBanks(flushing[b := true], busy[b := c], complete, upto)
  {
    forall a | 0 <= a < |flushing|
      ensures FlushBank(a, flushing[a], busy[b := c], complete, upto)
      ensures c.Program? && c.forPmt ==> FlushBank(a, flushing[b := true][a], busy[b := c], complete, upto)
    {
      assert FlushBank(a, flushing[a], busy, complete, upto);
    }
  }

  // ---- the scheduler's passes ----------------------------------------------------------------------------

  /** A new pass begins: none of the commands under way has been seen to end. */
  lemma PassBegins(loading: seq<nat>, vsps: seq<Vsp>, bufs: seq<Page>, flushing: seq<bool>, busy: Busy,
                   complete: set<nat>, back: seq<Page>, batch: nat)
    requires LoadBanks(loading, vsps, bufs, busy, complete, back, batch, |loading|)
    requires FlushBanks(flushing, busy, complete, |flushing|)
    ensures LoadBanks(loading, vsps, bufs, busy, {}, back, batch, 0) && FlushBanks(flushing, busy, {}, 0)
  {
    forall a | 0 <= a < |loading| ensures LoadBank(a, loading[a], vsps[a], bufs[a], busy, {}, back, batch, 0) {
      assert LoadBank(a, loading[a], vsps[a], bufs[a], busy, complete, back, batch, |loading|);
    }
    forall a | 0 <= a < |flushing| ensures FlushBank(a, flushing[a], busy, {}, 0) {
      assert FlushBank(a, flushing[a], busy, complete, |flushing|);
    }
  }

  /** What a bank reads into its load buffer when its command ends. */
  ghost function Fetched(flash: Flash, busy: Busy, b: nat, buf: Page): Page
    requires b in busy
  {
    if busy[b].Read? && busy[b].forPmt
        then Sub(if (b, busy[b].vpn) in flash then flash[(b, busy[b].vpn)] else [], busy[b].sp)
        else buf
  }

  /** A command ends, and its bank is marked complete for this pass. */
  lemma BankEnds(es: Entries, gtd: seq<Vsp>, flash: Flash, words: nat, loading: seq<nat>, vsps: seq<Vsp>,
                 bufs: seq<Page>, flushing: seq<bool>, busy: Busy, complete: set<nat>, batch: nat, b: nat)
    requires LoadsOk(es, gtd, loading, vsps) && b in busy && b !in complete && b < |loading| == |flushing|
    requires LoadBanks(loading, vsps, bufs, busy, complete, Back(gtd, flash, busy, batch, words), batch, 0)
    requires FlushBanks(flushing, busy, complete, 0)
    ensures LoadBanks(loading, vsps, bufs[b := Fetched(flash, busy, b, bufs[b])], busy - {b}, complete + {b},
                      Back(gtd, flash, busy, batch, words), batch, 0)
    ensures FlushBanks(flushing, busy - {b}, complete + {b}, 0)
  {
    var back, bufs' := Back(gtd, flash, busy, batch, words), bufs[b := Fetched(flash, busy, b, bufs[b])];
    forall a | 0 <= a < |loading|
      ensures LoadBank(a, loading[a], vsps[a], bufs'[a], busy - {b}, complete + {b}, back, batch, 0)
    {
      assert LoadBank(a, loading[a], vsps[a], bufs[a], busy, complete, back, batch, 0);
      if a == b && loading[b] != NULL_PMT {
        ReadReturnsBack(es, gtd, flash, busy, batch, words, loading, vsps, b);
      }
    }
    forall a | 0 <= a < |flushing| ensures FlushBank(a, flushing[a], busy - {b}, complete + {b}, 0) {
      assert FlushBank(a, flushing[a], busy, complete, 0);
    }
  }

  /** A sleeping thread that no signal wakes misses nothing: none of the banks that it waits for is complete. */
  lemma NothingMissed(loading: seq<nat>, vsps: seq<Vsp>, bufs: seq<Page>, flushing: seq<bool>, busy: Busy,
                      complete: set<nat>, back: seq<Page>, batch: nat, wakeup: set<nat>)
    requires LoadBanks(loading, vsps, bufs, busy, complete, back, batch, 0) && FlushBanks(flushing, busy, complete, 0)
    requires LoadsWatched(loading, wakeup, |loading|) && FlushesWatched(flushing, wakeup, |flushing|)
    requires forall b <- wakeup :: b !in complete
    ensures LoadBanks(loading, vsps, bufs, busy, complete, back, batch, |loading|)
    ensures FlushBanks(flushing, busy, complete, |flushing|)
  {
    forall a | 0 <= a < |loading|
      ensures LoadBank(a, loading[a], vsps[a], bufs[a], busy, complete, back, batch, |loading|)
    {
      assert LoadBank(a, loading[a], vsps[a], bufs[a], busy, complete, back, batch, 0);
    }
    forall a | 0 <= a < |flushing| ensures FlushBank(a, flushing[a], busy, complete, |flushing|) {
      assert FlushBank(a, flushing[a], busy, complete, 0);
    }
  }

  /** A page that is handed out to another thread is not one that the directory leads to. */
  lemma ReserveKeepsGtd(gtd: seq<Vsp>, batch: nat, handed: set<(nat, nat)>, reserved: set<(nat, nat)>, p: (nat, nat))
    requires GtdOk(gtd, batch, handed, reserved) && p !in handed
    ensures GtdOk(gtd, batch, handed + {p}, reserved + {p})
  {
    forall k | 0 <= k < |gtd| && gtd[k].vspn != 0
      ensures Owned(gtd[k].bank, VpnOf(gtd[k].vspn, batch), handed + {p}, reserved + {p})
    {
      assert Owned(gtd[k].bank, VpnOf(gtd[k].vspn, batch), handed, reserved);
    }
  }

  lemma FlushedKnown(es: Entries, fs: Entries, keys: seq<nat>, buf: seq<Page>, back: seq<Page>)
    requires Flushed(es, fs, keys, buf) && Clean(es, back)
    ensures forall i | 0 <= i < |keys| :: keys[i] < |back|
  {
    forall i | 0 <= i < |keys| ensures keys[i] < |back| {
      assert EvictedIn(es, keys[i]) && IsLoaded(es, keys[i]) && CleanAt(es, back, keys[i]);
    }
  }

  lemma LoadingFew(es: Entries, gtd: seq<Vsp>, loading: seq<nat>, vsps: seq<Vsp>)
    requires LoadsOk(es, gtd, loading, vsps)
    ensures |KeysOf(es, LOADING_STAMP)| <= |loading|
  {
    forall k <- KeysOf(es, LOADING_STAMP) ensures k in Elems(loading) {
      assert IsLoading(es, k) && HasBank(gtd, loading, k);
      assert loading[gtd[k].bank] in loading;
    }
    SubsetSize(KeysOf(es, LOADING_STAMP), Elems(loading));
    ElemsSize(loading);
  }

  /** Nothing that leaves the loading pages and their directory entries alone disturbs the loads. */
  lemma LoadsStay(es: Entries, fs: Entries, gtd: seq<Vsp>, gtd': seq<Vsp>, loading: seq<nat>, vsps: seq<Vsp>)
    requires LoadsOk(es, gtd, loading, vsps) && |gtd'| == |gtd|
    requires forall k: nat :: IsLoading(fs, k) <==> IsLoading(es, k)
    requires forall k: nat | IsLoading(es, k) && k < |gtd| :: gtd'[k] == gtd[k]
    ensures LoadsOk(fs, gtd', loading, vsps)
  {
    forall b | 0 <= b < |loading| && loading[b] != NULL_PMT ensures LoadEntry(fs, gtd', b, loading[b], vsps[b]) {
      assert LoadEntry(es, gtd, b, loading[b], vsps[b]);
    }
    forall k: nat | IsLoading(fs, k) ensures HasBank(gtd', loading, k) {
      assert HasBank(gtd, loading, k);
    }
  }

  lemma LoadStarts(es: Entries, fs: Entries, gtd: seq<Vsp>, loading: seq<nat>, vsps: seq<Vsp>, k: nat, b: nat)
    requires LoadsOk(es, gtd, loading, vsps) && k !in es && fs.Keys == es.Keys + {k} && IsLoading(fs, k)
    requires forall j | j in es :: fs[j] == es[j]
    requires k < |gtd| && gtd[k].vspn != 0 && gtd[k].bank == b < |loading| && loading[b] == NULL_PMT
    requires |gtd| <= NULL_PMT
    ensures LoadsOk(fs, gtd, loading[b := k], vsps[b := gtd[k]])
  {
    var loading', vsps' := loading[b := k], vsps[b := gtd[k]];
    forall c | 0 <= c < |loading| && loading'[c] != NULL_PMT ensures LoadEntry(fs, gtd, c, loading'[c], vsps'[c]) {
      if c != b {
        assert LoadEntry(es, gtd, c, loading[c], vsps[c]);
      }
    }
    forall j: nat | IsLoading(fs, j) ensures HasBank(gtd, loading', j) {
      if j != k {
        assert IsLoading(es, j) && HasBank(gtd, loading, j);
      }
    }
  }

  lemma LoadEnds(es: Entries, fs: Entries, gtd: seq<Vsp>, loading: seq<nat>, vsps: seq<Vsp>, k: nat, b: nat)
    requires LoadsOk(es, gtd, loading, vsps) && b < |loading| && loading[b] == k != NULL_PMT
    requires forall j: nat :: IsLoading(fs, j) <==> IsLoading(es, j) && j != k
    ensures LoadsOk(fs, gtd, loading[b := NULL_PMT], vsps)
  {
    assert LoadEntry(es, gtd, b, k, vsps[b]);
    var loading' := loading[b := NULL_PMT];
    forall c | 0 <= c < |loading| && loading'[c] != NULL_PMT ensures LoadEntry(fs, gtd, c, loading'[c], vsps[c]) {
      assert LoadEntry(es, gtd, c, loading[c], vsps[c]);
    }
    forall j: nat | IsLoading(fs, j) ensures HasBank(gtd, loading', j) {
      assert HasBank(gtd, loading, j);
    }
  }

  /** The bank of a loading page has no program under way, so what the read returns is what the directory leads to. */
  lemma ReadReturnsBack(es: Entries, gtd: seq<Vsp>, flash: Flash, busy: Busy, batch: nat, words: nat, loading: seq<nat>,
                        vsps: seq<Vsp>, b: nat)
    requires LoadsOk(es, gtd, loading, vsps) && b < |loading| && loading[b] != NULL_PMT
    requires Reading(busy, vsps[b], b, batch)
    ensures loading[b] < |gtd|
    ensures var v := busy[b].vpn;
      Sub(if (b, v) in flash then flash[(b, v)] else [], busy[b].sp) == Back(gtd, flash, busy, batch, words)[loading[b]]
  {
    assert LoadEntry(es, gtd, b, loading[b], vsps[b]);
  }

  // ---- what the steps of the cache do to the loading and the fixed pages -------------------------------

  /** The number of users of page k. */
  function Fixes(es: Entries, k: nat): nat { if k in es && es[k].stamp == FIXED_STAMP then es[k].fixes else 0 }

  /** The number of times that page k has been fixed, and not unfixed. */
  function UsesIn(fixed: map<nat, nat>, k: nat): nat { if k in fixed then fixed[k] else 0 }

  /** Page k has n users. */
  function WithUses(fixed: map<nat, nat>, k: nat, n: nat): map<nat, nat>
  {
    if n == 0 then fixed - {k} else fixed[k := n]
  }

  /** The fixed pages, with the number of their users. */
  ghost predicate FixedAre(es: Entries, fixed: map<nat, nat>) {
    forall k: nat {:trigger Fixes(es, k)} :: Fixes(es, k) == UsesIn(fixed, k) && (k in fixed <==> Fixes(es, k) > 0)
  }

  /** The same pages are fixed. */
  ghost predicate SameFixes(es: Entries, fs: Entries) {
    forall fixed {:trigger FixedAre(fs, fixed)} | FixedAre(es, fixed) :: FixedAre(fs, fixed)
  }

  lemma FixesStay(es: Entries, fs: Entries)
    requires forall k: nat :: Fixes(fs, k) == Fixes(es, k)
    ensures SameFixes(es, fs)
  {
    forall fixed | FixedAre(es, fixed) ensures FixedAre(fs, fixed) {
      forall k: nat ensures Fixes(fs, k) == UsesIn(fixed, k) && (k in fixed <==> Fixes(fs, k) > 0) {
        assert Fixes(es, k) == UsesIn(fixed, k);
      }
    }
  }

  lemma IsFixed(es: Entries, fixed: map<nat, nat>, k: nat)
    requires FixedAre(es, fixed) && UsesIn(fixed, k) > 0
    ensures k in es && es[k].stamp == FIXED_STAMP && es[k].fixes == UsesIn(fixed, k)
  {
    assert Fixes(es, k) == UsesIn(fixed, k);
  }

  lemma FixedSize(es: Entries, fixed: map<nat, nat>)
    requires KindsOk(es) && FixedAre(es, fixed)
    ensures KeysOf(es, FIXED_STAMP) == fixed.Keys
  {
    forall k: nat ensures k in KeysOf(es, FIXED_STAMP) <==> k in fixed {
      assert k in fixed <==> Fixes(es, k) > 0;
      assert k in es ==> KindOk(es[k]);
    }
  }

  lemma LookUpKinds(es: Entries, fs: Entries, k: nat)
    requires k in es && LookedUp(es, fs, k)
    ensures SameFixes(es, fs)
    ensures forall j: nat :: IsLoading(fs, j) <==> IsLoading(es, j)
  {
    FixesStay(es, fs);
  }

  lemma LoadKinds(es: Entries, fs: Entries, k: nat, p: Page)
    requires IsLoading(es, k) && Touched(es[k := es[k].(page := p)], fs, k)
    ensures SameFixes(es, fs)
    ensures forall j: nat :: IsLoading(fs, j) <==> IsLoading(es, j) && j != k
  {
    FixesStay(es, fs);
  }

  lemma EvictKinds(es: Entries, fs: Entries)
    requires Evicting(es, fs)
    ensures forall j: nat :: IsLoading(fs, j) <==> IsLoading(es, j)
    ensures SameFixes(es, fs)
  {
    FixesStay(es, fs);
  }

  lemma FlushKinds(es: Entries, fs: Entries, keys: seq<nat>, buf: seq<Page>)
    requires Flushed(es, fs, keys, buf)
    ensures SameFixes(es, fs)
    ensures forall j: nat :: IsLoading(fs, j) <==> IsLoading(es, j)
    ensures forall j: nat | IsLoading(es, j) :: j !in keys
  {
    FixesStay(es, fs);
    forall j: nat | j in es && es[j].stamp != EVICTED_STAMP ensures j !in keys {
      assert !EvictedIn(es, j);
    }
  }

  lemma PutKinds(es: Entries, fs: Entries, k: nat)
    requires k !in es && k in fs && fs == es[k := fs[k]] && fs[k].stamp == LOADING_STAMP
    ensures SameFixes(es, fs)
    ensures IsLoading(fs, k) && fs.Keys == es.Keys + {k}
  {
    FixesStay(es, fs);
  }

  // ---- the cache and the loads together -------------------------------------------------------------------

  /** The cache agrees with what is behind it, and its loading pages with the loads under way. */
  ghost predicate Holds(es: Entries, back: seq<Page>, gtd: seq<Vsp>, loading: seq<nat>, vsps: seq<Vsp>) {
    |back| == |gtd| && Clean(es, back) && LoadsOk(es, gtd, loading, vsps)
  }

  lemma EmptyHolds(gtd: seq<Vsp>, batch: nat, words: nat, loading: seq<nat>, vsps: seq<Vsp>, bufs: seq<Page>)
    requires (forall k | 0 <= k < |gtd| :: gtd[k].vspn == 0)
    requires (forall b | 0 <= b < |loading| :: loading[b] == NULL_PMT)
    requires |vsps| == |bufs| == |loading|
    ensures var back := Back(gtd, map[], map[], batch, words);
      && Holds(map[], back, gtd, loading, vsps) && (forall k | 0 <= k < |gtd| :: Table(map[], back)[k] == Zeros(words))
      && LoadBanks(loading, vsps, bufs, map[], {}, back, batch, |loading|) && GtdOk(gtd, batch, {}, {})
  {
  }

  /** The table is what the cache with these entries, and what is behind it, make it. */
  ghost predicate IsTable(table: seq<Page>, es: Entries, back: seq<Page>) { table == Table(es, back) }

  /** The table and the fixed pages are as they were. */
  ghost predicate Same(es: Entries, back: seq<Page>, fs: Entries, back': seq<Page>) {
    && SameFixes(es, fs)
    && forall table {:trigger IsTable(table, fs, back')} | IsTable(table, es, back) :: IsTable(table, fs, back')
  }

  lemma FinishHolds(es: Entries, gs: Entries, back: seq<Page>, gtd: seq<Vsp>, loading: seq<nat>, vsps: seq<Vsp>, k: nat,
                    b: nat)
    requires Holds(es, back, gtd, loading, vsps) && b < |loading| && loading[b] == k != NULL_PMT && k < |gtd| && k in es
    requires Touched(es[k := es[k].(page := back[k])], gs, k) && SameData(es[k].(page := back[k]), gs[k])
    ensures Holds(gs, back, gtd, loading[b := NULL_PMT], vsps) && Same(es, back, gs, back)
  {
    assert LoadEntry(es, gtd, b, k, vsps[b]);
    LoadKinds(es, gs, k, back[k]);
    LoadSameTable(es, es[k := es[k].(page := back[k])], gs, k, back);
    LoadEnds(es, gs, gtd, loading, vsps, k, b);
  }

  lemma LookUpHolds(es: Entries, fs: Entries, k: nat, back: seq<Page>, gtd: seq<Vsp>, loading: seq<nat>, vsps: seq<Vsp>)
    requires Holds(es, back, gtd, loading, vsps) && k in es && LookedUp(es, fs, k)
    ensures Holds(fs, back, gtd, loading, vsps) && Same(es, back, fs, back)
  {
    LookUpKinds(es, fs, k);
    LookUpSamePages(es, fs, k);
    SamePagesSameTable(es, fs, back);
    LoadsStay(es, fs, gtd, gtd, loading, vsps);
  }

  lemma EvictHolds(es: Entries, fs: Entries, back: seq<Page>, gtd: seq<Vsp>, loading: seq<nat>, vsps: seq<Vsp>)
    requires Holds(es, back, gtd, loading, vsps) && Evicting(es, fs)
    ensures Holds(fs, back, gtd, loading, vsps) && Same(es, back, fs, back)
  {
    EvictKinds(es, fs);
    EvictSameTable(es, fs, back);
    LoadsStay(es, fs, gtd, gtd, loading, vsps);
  }

  lemma FlushHolds(es: Entries, fs: Entries, keys: seq<nat>, buf: seq<Page>, back: seq<Page>, back': seq<Page>,
                   gtd: seq<Vsp>, gtd': seq<Vsp>, loading: seq<nat>, vsps: seq<Vsp>, b: nat, vpn: nat, batch: nat)
    requires Holds(es, back, gtd, loading, vsps) && Flushed(es, fs, keys, buf)
    requires Rewritten(back, back', keys, buf) && Redirected(gtd, gtd', keys, b, vpn, batch)
    ensures Holds(fs, back', gtd', loading, vsps) && Same(es, back, fs, back')
  {
    FlushKinds(es, fs, keys, buf);
    FlushSameTable(es, fs, keys, buf, back, back');
    LoadsStay(es, fs, gtd, gtd', loading, vsps);
  }

  lemma StartHolds(es: Entries, fs: Entries, back: seq<Page>, gtd: seq<Vsp>, loading: seq<nat>, vsps: seq<Vsp>, k: nat,
                   b: nat)
    requires Holds(es, back, gtd, loading, vsps) && k !in es && k in fs && fs == es[k := fs[k]]
    requires fs[k].stamp == LOADING_STAMP
    requires k < |gtd| && gtd[k].vspn != 0 && gtd[k].bank == b < |loading| && loading[b] == NULL_PMT
    requires |gtd| <= NULL_PMT
    ensures Holds(fs, back, gtd, loading[b := k], vsps[b := gtd[k]]) && Same(es, back, fs, back)
  {
    PutKinds(es, fs, k);
    PutSameTable(es, k, fs[k], back);
    LoadStarts(es, fs, gtd, loading, vsps, k, b);
  }

  /** A page that has never been written is put into the cache and is loaded at once. */
  lemma ZeroHolds(es: Entries, fs: Entries, gs: Entries, back: seq<Page>, gtd: seq<Vsp>, loading: seq<nat>,
                  vsps: seq<Vsp>, k: nat)
    requires Holds(es, back, gtd, loading, vsps) && k !in es && k in fs && fs == es[k := fs[k]]
    requires fs[k].stamp == LOADING_STAMP
    requires k < |gtd| && Touched(fs[k := fs[k].(page := back[k])], gs, k) && SameData(fs[k].(page := back[k]), gs[k])
    ensures Holds(gs, back, gtd, loading, vsps) && Same(es, back, gs, back)
  {
    PutKinds(es, fs, k);
    PutSameTable(es, k, fs[k], back);
    LoadKinds(fs, gs, k, back[k]);
    LoadSameTable(fs, fs[k := fs[k].(page := back[k])], gs, k, back);
    LoadsStay(es, gs, gtd, gtd, loading, vsps);
  }

  /** Everything that a flush keeps. */
  lemma FlushIssued(es: Entries, fs: Entries, keys: seq<nat>, buf: seq<Page>, gtd: seq<Vsp>, gtd': seq<Vsp>,
                    flash: Flash, busy: Busy, complete: set<nat>, loading: seq<nat>, vsps: seq<Vsp>, bufs: seq<Page>,
                    batch: nat, words: nat, b: nat, v: nat, handed: set<(nat, nat)>, reserved: set<(nat, nat)>)
    requires Flushed(es, fs, keys, buf) && Redirected(gtd, gtd', keys, b, v, batch) && |keys| == batch && v > 0
    requires b !in busy
    requires GtdOk(gtd, batch, handed, reserved) && (b, v) !in handed && reserved <= handed
    requires Holds(es, Back(gtd, flash, busy, batch, words), gtd, loading, vsps)
    requires LoadBanks(loading, vsps, bufs, busy, complete, Back(gtd, flash, busy, batch, words), batch, |loading|)
    ensures var back, busy' := Back(gtd, flash, busy, batch, words), busy[b := Program(v, buf, true)];
      var back' := Back(gtd', flash, busy', batch, words);
      && Holds(fs, back', gtd', loading, vsps) && Same(es, back, fs, back')
      && LoadBanks(loading, vsps, bufs, busy', complete, back', batch, |loading|)
    ensures GtdOk(gtd', batch, handed + {(b, v)}, reserved)
  {
    var back, busy' := Back(gtd, flash, busy, batch, words), busy[b := Program(v, buf, true)];
    var back' := Back(gtd', flash, busy', batch, words);
    FlushRewrites(gtd, gtd', flash, busy, batch, words, keys, buf, b, v, handed, reserved);
    FlushHolds(es, fs, keys, buf, back, back', gtd, gtd', loading, vsps, b, v, batch);
    LoadsStayWaiting(loading, vsps, bufs, busy, complete, back, back', batch);
    LoadsUndisturbed(loading, vsps, bufs, busy, complete, back', batch, b, busy'[b], |loading|);
  }

  /** Everything that issuing a load keeps. */
  lemma LoadIsHeld(es: Entries, fs: Entries, gtd: seq<Vsp>, flash: Flash, busy: Busy, complete: set<nat>,
                   loading: seq<nat>, vsps: seq<Vsp>, bufs: seq<Page>, flushing: seq<bool>, batch: nat, words: nat,
                   k: nat, b: nat, handed: set<(nat, nat)>, reserved: set<(nat, nat)>)
    requires Holds(es, Back(gtd, flash, busy, batch, words), gtd, loading, vsps) && |flushing| == |loading|
    requires LoadBanks(loading, vsps, bufs, busy, complete, Back(gtd, flash, busy, batch, words), batch, |loading|)
    requires FlushBanks(flushing, busy, complete, |flushing|) && GtdOk(gtd, batch, handed, reserved)
    requires k !in es && k in fs && fs == es[k := fs[k]] && fs[k].stamp == LOADING_STAMP
    requires k < |gtd| <= NULL_PMT && gtd[k].vspn != 0 && gtd[k].bank == b < |loading| && b !in busy
    ensures var busy', back := busy[b := Read(VpnOf(gtd[k].vspn, batch), SpOf(gtd[k].vspn, batch), true)],
      Back(gtd, flash, busy, batch, words);
      && Back(gtd, flash, busy', batch, words) == back
      && Holds(fs, back, gtd, loading[b := k], vsps[b := gtd[k]]) && Same(es, back, fs, back)
      && LoadBanks(loading[b := k], vsps[b := gtd[k]], bufs, busy', complete, back, batch, |loading|)
      && FlushBanks(flushing, busy', complete, |flushing|)
  {
    var c, back := Read(VpnOf(gtd[k].vspn, batch), SpOf(gtd[k].vspn, batch), true),
        Back(gtd, flash, busy, batch, words);
    OthersKeepBack(gtd, flash, busy, batch, words, b, c, handed, reserved);
    LoadsUndisturbed(loading, vsps, bufs, busy, complete, back, batch, b, c, |loading|);
    StartHolds(es, fs, back, gtd, loading, vsps, k, b);
    LoadIssued(loading, vsps, bufs, busy, complete, back, batch, b, k, gtd[k]);
    FlushesUndisturbed(flushing, busy, complete, b, c, |flushing|);
  }

  // ---- calls of other threads -----------------------------------------------------------------------------

  lemma WriteHolds(es: Entries, fs: Entries, k: nat, p: Page, back: seq<Page>, gtd: seq<Vsp>, loading: seq<nat>,
                   vsps: seq<Vsp>, table: seq<Page>)
    requires Holds(es, back, gtd, loading, vsps) && IsLoaded(es, k) && IsLoaded(fs, k)
    requires Became(es, fs, k, es[k].fixes, true, p)
    requires KindsOk(es) && KindsOk(fs)
    requires IsTable(table, es, back)
    ensures k < |back| == |table| && Holds(fs, back, gtd, loading, vsps) && IsTable(table[k := p], fs, back)
    ensures SameFixes(es, fs)
  {
    WriteTable(es, fs, k, p, es[k].fixes, back);
    LoadsStay(es, fs, gtd, gtd, loading, vsps);
    assert KindOk(es[k]) && KindOk(fs[k]);
    FixesStay(es, fs);
  }

  lemma FixHolds(es: Entries, fs: Entries, k: nat, back: seq<Page>, gtd: seq<Vsp>, loading: seq<nat>, vsps: seq<Vsp>,
                 fixed: map<nat, nat>, table: seq<Page>)
    requires Holds(es, back, gtd, loading, vsps) && IsLoaded(es, k)
    requires Became(es, fs, k, es[k].fixes + 1, es[k].dirty, es[k].page) && fs[k].stamp == FIXED_STAMP && KindsOk(es)
    requires FixedAre(es, fixed) && IsTable(table, es, back)
    ensures Holds(fs, back, gtd, loading, vsps) && IsTable(table, fs, back)
    ensures FixedAre(fs, WithUses(fixed, k, UsesIn(fixed, k) + 1))
  {
    assert KindOk(es[k]);
    BecameSamePages(es, fs, k, es[k].fixes + 1, es[k].dirty);
    SamePagesSameTable(es, fs, back);
    LoadsStay(es, fs, gtd, gtd, loading, vsps);
    forall j: nat ensures j != k ==> Fixes(fs, j) == Fixes(es, j) {
      assert Fixes(es, j) == UsesIn(fixed, j);
    }
    assert Fixes(es, k) == UsesIn(fixed, k);
  }

  lemma UnfixHolds(es: Entries, fs: Entries, k: nat, back: seq<Page>, gtd: seq<Vsp>, loading: seq<nat>, vsps: seq<Vsp>,
                   fixed: map<nat, nat>, table: seq<Page>)
    requires Holds(es, back, gtd, loading, vsps) && k in es && es[k].fixes > 0 && KindOk(es[k])
    requires Became(es, fs, k, es[k].fixes - 1, es[k].dirty, es[k].page) && KindOk(fs[k])
    requires if fs[k].fixes > 0 then fs[k].stamp == FIXED_STAMP else IsNormal(fs[k].stamp)
    requires FixedAre(es, fixed) && IsTable(table, es, back)
    ensures Holds(fs, back, gtd, loading, vsps) && IsTable(table, fs, back)
    ensures UsesIn(fixed, k) > 0 && FixedAre(fs, WithUses(fixed, k, UsesIn(fixed, k) - 1))
  {
    BecameSamePages(es, fs, k, es[k].fixes - 1, es[k].dirty);
    SamePagesSameTable(es, fs, back);
    LoadsStay(es, fs, gtd, gtd, loading, vsps);
    forall j: nat ensures j != k ==> Fixes(fs, j) == Fixes(es, j) {
      assert Fixes(es, j) == UsesIn(fixed, j);
    }
    assert Fixes(es, k) == UsesIn(fixed, k);
  }
}
