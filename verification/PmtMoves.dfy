/** How the operations of the PMT cache change its entries, and that each keeps the invariant. */
module PmtMoves {
  import opened Sets
  import opened PmtStamps
  import opened PmtEntries

  // ---- put ---------------------------------------------------------------------------------------------

  /** A page is put into a free slot, to be loaded. */
  lemma PutKeepsCore(es: Entries, clock: nat, keys: seq<nat>, merged: seq<nat>, k: nat, e: Entry)
    requires CoreOk(es, clock, keys, merged) && k !in es && KindOk(e) && e.stamp == LOADING_STAMP
    ensures CoreOk(es[k := e], clock, keys, merged)
  {
    var fs := es[k := e];
    forall j | NormalIn(fs, j) ensures NormalIn(es, j) {
    }
    forall j ensures EvictedIn(fs, j) <==> j in keys {
      assert EvictedIn(es, j) <==> j in keys;
    }
  }

  // ---- pages in use --------------------------------------------------------------------------------------

  /** A page that is not evicted gets another fixed or loading stamp, dirty bit, fix count or content. */
  lemma ChangeKeepsCore(es: Entries, clock: nat, keys: seq<nat>, merged: seq<nat>, k: nat, e: Entry)
    requires CoreOk(es, clock, keys, merged) && k in es && !EvictedIn(es, k) && KindOk(e) && e.slot == es[k].slot
    requires e.stamp != EVICTED_STAMP && (IsNormal(e.stamp) ==> e.stamp == es[k].stamp)
    ensures CoreOk(es[k := e], clock, keys, merged)
  {
    var fs := es[k := e];
    forall j | NormalIn(fs, j) ensures NormalIn(es, j) && fs[j].stamp == es[j].stamp {
    }
    forall j ensures EvictedIn(fs, j) <==> j in keys {
      assert EvictedIn(es, j) <==> j in keys;
    }
  }

  /** A touched page that is normal, with the merge buffer left alone. */
  lemma TouchKeepsCore(es: Entries, fs: Entries, k: nat, clock: nat, clock': nat, keys: seq<nat>, merged: seq<nat>)
    requires CoreOk(es, clock, keys, merged) && !EvictedIn(es, k) && Touched(es, fs, k) && StampsOk(fs, clock')
    requires fs[k].slot == es[k].slot && fs[k].fixes == 0
    ensures CoreOk(fs, clock', keys, merged)
  {
    TouchKeepsMerged(es, fs, k, keys, merged);
    TouchKeepsKinds(es, fs, k);
  }

  /** Nothing but page k has changed, up to time stamps; k is in its slot, with these users, dirtiness and content. */
  ghost predicate Became(es: Entries, fs: Entries, k: nat, fixes: nat, dirty: bool, page: Page) {
    && k in es && OthersInOrder(es, fs, k)
    && fs[k].slot == es[k].slot && fs[k].fixes == fixes && fs[k].dirty == dirty && fs[k].page == page
  }

  lemma LookUpThenChange(es: Entries, fs: Entries, gs: Entries, k: nat, e: Entry)
    requires k in es && LookedUp(es, fs, k) && gs == fs[k := e] && e.slot == fs[k].slot
    ensures Became(es, gs, k, e.fixes, e.dirty, e.page)
  {
    assert gs.Keys == fs.Keys;
  }

  lemma LookUpThenBecame(es: Entries, fs: Entries, gs: Entries, k: nat, fixes: nat, dirty: bool, page: Page)
    requires k in es && LookedUp(es, fs, k) && Became(fs, gs, k, fixes, dirty, page)
    ensures Became(es, gs, k, fixes, dirty, page)
  {
  }

  lemma BecameThenPage(es: Entries, fs: Entries, k: nat, fixes: nat, dirty: bool, page: Page, page': Page)
    requires Became(es, fs, k, fixes, dirty, page)
    ensures Became(es, fs[k := fs[k].(page := page')], k, fixes, dirty, page')
  {
    assert fs[k := fs[k].(page := page')].Keys == fs.Keys;
  }

  lemma LookUpThenTouch(es: Entries, fs: Entries, gs: Entries, k: nat)
    requires k in es && fs.Keys == es.Keys && (forall j | j in es && j != k :: fs[j] == es[j]) && Touched(fs, gs, k)
    ensures Touched(es, gs, k)
  {
  }

  lemma ReleaseKeepsCore(es: Entries, fs: Entries, gs: Entries, k: nat, clock: nat, clock': nat, keys: seq<nat>,
                         merged: seq<nat>)
    requires CoreOk(es, clock, keys, merged) && k in es && !EvictedIn(es, k) && fs == es[k := es[k].(fixes := 0)]
    requires Touched(fs, gs, k) && StampsOk(gs, clock') && SameData(fs[k], gs[k])
    ensures CoreOk(gs, clock', keys, merged) && Touched(es, gs, k) && |gs| == |es|
  {
    LookUpThenTouch(es, fs, gs, k);
    TouchKeepsCore(es, gs, k, clock, clock', keys, merged);
    TouchKeepsSize(es, gs, k);
  }

  lemma ChangeKeepsNewest(es: Entries, k: nat, e: Entry)
    requires k in es && IsNewest(es, k) && (IsNormal(e.stamp) ==> e.stamp == es[k].stamp)
    ensures IsNewest(es[k := e], k)
  {
    forall j | NormalIn(es[k := e], j) ensures NormalIn(es, j) {
    }
  }

  lemma UnfixKeepsStamps(es: Entries, k: nat, clock: nat)
    requires StampsOk(es, clock) && k in es
    ensures StampsOk(es[k := es[k].(fixes := 0)], clock)
  {
    forall j | NormalIn(es[k := es[k].(fixes := 0)], j) ensures NormalIn(es, j) {
    }
  }

  /** A page that gets its content stays where it is. */
  lemma SameKeys(es: Entries, fs: Entries, k: nat, p: Page)
    requires k in es && Touched(es[k := es[k].(page := p)], fs, k)
    ensures fs.Keys == es.Keys
  {
    assert es[k := es[k].(page := p)].Keys == es.Keys;
  }

  /** A page that is put into the cache, and then gets its content. */
  lemma OneMoreKey(es: Entries, fs: Entries, gs: Entries, k: nat, p: Page)
    requires k in fs && fs == es[k := fs[k]] && Touched(fs[k := fs[k].(page := p)], gs, k)
    ensures gs.Keys == es.Keys + {k}
  {
    SameKeys(fs, gs, k, p);
  }

  // ---- eviction ------------------------------------------------------------------------------------------

  ghost function KeysOf(es: Entries, kind: nat): set<nat> { set k | k in es && es[k].stamp == kind }

  ghost function NormalKeys(es: Entries): set<nat> { set k | k in es && IsNormal(es[k].stamp) }

  /** When the cache is full and few enough pages are fixed or loading, a page can be evicted until the merge buffer is
      full. */
  lemma SomeNormal(es: Entries, keys: seq<nat>, merged: seq<nat>)
    requires KindsOk(es) && MergeOk(es, keys, merged)
    requires |KeysOf(es, FIXED_STAMP)| + |KeysOf(es, LOADING_STAMP)| + |keys| < |es|
    ensures exists k :: NormalIn(es, k)
  {
    var fixd, loading, normal := KeysOf(es, FIXED_STAMP), KeysOf(es, LOADING_STAMP), NormalKeys(es);
    ElemsSize(keys);
    forall k <- es.Keys ensures k in normal || k in fixd || k in loading || k in Elems(keys) {
      assert EvictedIn(es, k) <==> k in keys;
    }
    SubsetSize(es.Keys * (fixd + loading + Elems(keys)), fixd + loading + Elems(keys));
    var k := Missing(es.Keys * (fixd + loading + Elems(keys)), es.Keys);
    assert NormalIn(es, k);
  }

  /** k has been used less recently than any other page that can be evicted. */
  ghost predicate IsOldest(es: Entries, k: nat) {
    NormalIn(es, k) && forall j | NormalIn(es, j) && j != k :: es[k].stamp < es[j].stamp
  }

  /** What evict may do: the pages it takes are the least recently used ones; of these the dirty ones are marked and
      stay, and a clean one is dropped. */
  ghost predicate Evicting(es: Entries, fs: Entries) {
    && fs.Keys <= es.Keys
    && (forall k | k in fs ::
         fs[k] == es[k] || (IsNormal(es[k].stamp) && es[k].dirty && fs[k] == es[k].(stamp := EVICTED_STAMP)))
    && (forall k | k in es && k !in fs :: IsNormal(es[k].stamp) && !es[k].dirty)
    && (forall j, k | NormalIn(es, j) && !NormalIn(fs, j) && NormalIn(fs, k) :: es[j].stamp < es[k].stamp)
  }

  /** One page leaves the cache, and every other one that has been taken has been used less recently. */
  ghost predicate DropsOne(es: Entries, fs: Entries) { exists k: nat :: IsDrop(es, fs, k) }

  ghost predicate IsDrop(es: Entries, fs: Entries, k: nat) {
    && k in es && fs.Keys == es.Keys - {k}
    && forall j | NormalIn(es, j) && !NormalIn(fs, j) :: es[j].stamp <= es[k].stamp
  }

  lemma DropIsOne(es: Entries, fs: Entries, k: nat)
    requires Evicting(es, fs) && IsOldest(fs, k) && fs.Keys == es.Keys
    ensures DropsOne(es, fs - {k})
  {
    forall j | NormalIn(es, j) && !NormalIn(fs - {k}, j) ensures es[j].stamp <= es[k].stamp {
      assert j == k || !NormalIn(fs, j);
    }
    assert IsDrop(es, fs - {k}, k);
  }

  /** The entry in the slot with the least stamp of a full cache is the oldest one. */
  lemma LeastIsOldest(idxes: seq<nat>, stamps: seq<nat>, dirty: seq<bool>, fixes: seq<nat>, pages: seq<Page>,
                      es: Entries, i: nat, k: nat)
    requires Linked(idxes, stamps, dirty, fixes, pages, es) && |es| == |idxes| && k in es && es[k].slot == i < |idxes|
    requires forall j | 0 <= j < |stamps| :: stamps[i] <= stamps[j]
    requires exists j :: NormalIn(es, j)
    requires forall a, b | NormalIn(es, a) && NormalIn(es, b) && a != b :: es[a].stamp != es[b].stamp
    ensures IsOldest(es, k) && stamps[i] == es[k].stamp && dirty[i] == es[k].dirty
  {
    EntryAt(idxes, stamps, dirty, fixes, pages, es, k);
    forall j | j in es ensures es[k].stamp <= es[j].stamp {
      EntryAt(idxes, stamps, dirty, fixes, pages, es, j);
    }
    var j :| NormalIn(es, j);
    assert es[k].stamp <= es[j].stamp;
  }

  lemma MarkEvicts(es: Entries, fs: Entries, k: nat)
    requires Evicting(es, fs) && IsOldest(fs, k) && fs[k].dirty
    ensures Evicting(es, fs[k := fs[k].(stamp := EVICTED_STAMP)])
  {
    var gs := fs[k := fs[k].(stamp := EVICTED_STAMP)];
    forall j, i | NormalIn(es, j) && !NormalIn(gs, j) && NormalIn(gs, i) ensures es[j].stamp < es[i].stamp {
      TakenIsOlder(es, fs, k, j, i);
    }
  }

  lemma DropEvicts(es: Entries, fs: Entries, k: nat)
    requires Evicting(es, fs) && IsOldest(fs, k) && !fs[k].dirty
    ensures Evicting(es, fs - {k})
  {
    var gs := fs - {k};
    forall j, i | NormalIn(es, j) && !NormalIn(gs, j) && NormalIn(gs, i) ensures es[j].stamp < es[i].stamp {
      TakenIsOlder(es, fs, k, j, i);
    }
  }

  lemma TakenIsOlder(es: Entries, fs: Entries, k: nat, j: nat, i: nat)
    requires Evicting(es, fs) && IsOldest(fs, k)
    requires NormalIn(es, j) && (j == k || !NormalIn(fs, j)) && NormalIn(fs, i) && i != k
    ensures es[j].stamp < es[i].stamp
  {
    assert fs[k] == es[k] && fs[i] == es[i];
  }

  lemma MarkKeepsCore(fs: Entries, clock: nat, keys: seq<nat>, merged: seq<nat>, k: nat)
    requires CoreOk(fs, clock, keys, merged) && NormalIn(fs, k) && fs[k].dirty
    ensures CoreOk(fs[k := fs[k].(stamp := EVICTED_STAMP)], clock, keys + [k], merged + [fs[k].slot])
  {
    var gs := fs[k := fs[k].(stamp := EVICTED_STAMP)];
    forall j | NormalIn(gs, j) ensures NormalIn(fs, j) && gs[j] == fs[j] {
    }
    forall j ensures EvictedIn(gs, j) <==> j in keys + [k] {
      assert EvictedIn(fs, j) <==> j in keys;
    }
    forall i | 0 <= i < |keys| ensures keys[i] != k {
      assert keys[i] in keys;
    }
  }

  lemma DropKeepsCore(fs: Entries, clock: nat, keys: seq<nat>, merged: seq<nat>, k: nat)
    requires CoreOk(fs, clock, keys, merged) && NormalIn(fs, k)
    ensures CoreOk(fs - {k}, clock, keys, merged)
  {
    var gs := fs - {k};
    forall j ensures EvictedIn(gs, j) <==> j in keys {
      assert EvictedIn(fs, j) <==> j in keys;
    }
    forall i | 0 <= i < |keys| ensures keys[i] in gs {
      assert keys[i] in keys;
    }
    forall j | NormalIn(gs, j) ensures NormalIn(fs, j) && gs[j] == fs[j] {
    }
  }

  lemma MarkKeepsKinds(fs: Entries, gs: Entries, k: nat)
    requires NormalIn(fs, k) && gs == fs[k := fs[k].(stamp := EVICTED_STAMP)]
    ensures KeysOf(gs, FIXED_STAMP) == KeysOf(fs, FIXED_STAMP) && KeysOf(gs, LOADING_STAMP) == KeysOf(fs, LOADING_STAMP)
  {
  }

  lemma DropKeepsKinds(fs: Entries, gs: Entries, k: nat)
    requires NormalIn(fs, k) && gs == fs - {k}
    ensures KeysOf(gs, FIXED_STAMP) == KeysOf(fs, FIXED_STAMP) && KeysOf(gs, LOADING_STAMP) == KeysOf(fs, LOADING_STAMP)
  {
  }

  lemma PutSize(fs: Entries, k: nat, e: Entry)
    requires k in fs
    ensures |fs[k := e]| == |fs|
  {
    assert fs[k := e].Keys == fs.Keys;
  }

  lemma DropSize(fs: Entries, k: nat)
    requires k in fs
    ensures |fs - {k}| == |fs| - 1
  {
    assert fs.Keys == (fs - {k}).Keys + {k};
  }

  /** The fixed and the loading pages are the same. */
  ghost predicate SameKinds(es: Entries, fs: Entries) {
    KeysOf(fs, FIXED_STAMP) == KeysOf(es, FIXED_STAMP) && KeysOf(fs, LOADING_STAMP) == KeysOf(es, LOADING_STAMP)
  }

  lemma DropTaken(es: Entries, fs: Entries, k: nat)
    requires Evicting(es, fs) && fs.Keys == es.Keys && SameKinds(es, fs) && IsOldest(fs, k) && !fs[k].dirty
    ensures var gs := fs - {k}; Evicting(es, gs) && SameKinds(es, gs) && DropsOne(es, gs) && |gs| == |fs| - 1
  {
    DropEvicts(es, fs, k);
    DropIsOne(es, fs, k);
    DropKeepsKinds(fs, fs - {k}, k);
    DropSize(fs, k);
  }

  lemma MarkTaken(es: Entries, fs: Entries, k: nat)
    requires Evicting(es, fs) && fs.Keys == es.Keys && SameKinds(es, fs) && IsOldest(fs, k) && fs[k].dirty
    ensures var gs := fs[k := fs[k].(stamp := EVICTED_STAMP)];
      Evicting(es, gs) && SameKinds(es, gs) && gs.Keys == es.Keys && |gs| == |fs|
  {
    MarkEvicts(es, fs, k);
    MarkKeepsKinds(fs, fs[k := fs[k].(stamp := EVICTED_STAMP)], k);
    PutSize(fs, k, fs[k].(stamp := EVICTED_STAMP));
  }

  /** The shortcut stays right, or is dropped, when page k in slot i goes. */
  ghost predicate ShortcutLeft(es: Entries, fs: Entries, n: nat, lastPmt: nat, lastPage: nat, i: nat) {
    if lastPage == i then ShortcutOk(fs, n, NULL_PMT, n) else ShortcutOk(fs, n, lastPmt, lastPage)
  }

  lemma MarkKeepsShortcut(es: Entries, n: nat, lastPmt: nat, lastPage: nat, k: nat, i: nat)
    requires ShortcutOk(es, n, lastPmt, lastPage) && NormalIn(es, k) && es[k].slot == i
    ensures ShortcutLeft(es, es[k := es[k].(stamp := EVICTED_STAMP)], n, lastPmt, lastPage, i)
  {
  }

  lemma DropKeepsShortcut(es: Entries, n: nat, lastPmt: nat, lastPage: nat, k: nat, i: nat)
    requires ShortcutOk(es, n, lastPmt, lastPage) && k in es && es[k].slot == i
    ensures ShortcutLeft(es, es - {k}, n, lastPmt, lastPage, i)
  {
  }

  // ---- flush ---------------------------------------------------------------------------------------------

  /** Flushing empties the merge buffer: keys are the pages that were evicted, and buf their contents in the same
      order. */
  ghost predicate Flushed(es: Entries, fs: Entries, keys: seq<nat>, buf: seq<Page>) {
    && |buf| == |keys|
    && (forall i, j | 0 <= i < j < |keys| :: keys[i] != keys[j])
    && (forall i | 0 <= i < |keys| :: EvictedIn(es, keys[i]) && buf[i] == es[keys[i]].page)
    && (forall k | k in es :: EvictedIn(es, k) <==> k in keys)
    && fs == es - Elems(keys)
  }

  /** Flushing all of the merge buffer. */
  lemma FlushKeepsCore(es: Entries, fs: Entries, clock: nat, keys: seq<nat>, merged: seq<nat>, buf: seq<Page>)
    requires CoreOk(es, clock, keys, merged) && FlushedSome(es, fs, keys, |keys|, buf)
    ensures CoreOk(fs, clock, [], []) && Flushed(es, fs, keys, buf)
  {
    assert keys[..|keys|] == keys;
    forall j ensures !EvictedIn(fs, j) {
      assert EvictedIn(es, j) <==> j in keys;
    }
    forall j | NormalIn(fs, j) ensures NormalIn(es, j) && fs[j] == es[j] {
    }
  }

  lemma FlushMakesRoom(es: Entries, fs: Entries, keys: seq<nat>, buf: seq<Page>)
    requires Flushed(es, fs, keys, buf) && |keys| > 0
    ensures |fs| < |es| && fs.Keys <= es.Keys
  {
    assert EvictedIn(es, keys[0]) && keys[0] in Elems(keys);
    SubsetSize(fs.Keys + {keys[0]}, es.Keys);
    assert |fs| == |fs.Keys| && |es| == |es.Keys|;
  }

  /** The first j pages have been flushed. */
  ghost predicate FlushedSome(es: Entries, fs: Entries, keys: seq<nat>, j: nat, buf: seq<Page>) {
    && |buf| == j <= |keys| && (forall i | 0 <= i < j :: keys[i] in es && buf[i] == es[keys[i]].page)
    && fs == es - Elems(keys[..j])
  }

  lemma FlushNext(es: Entries, fs: Entries, clock: nat, keys: seq<nat>, merged: seq<nat>, j: nat, buf: seq<Page>)
    requires FlushedSome(es, fs, keys, j, buf) && j < |keys| && CoreOk(es, clock, keys, merged)
    ensures var k := keys[j];
      && k in fs && fs[k] == es[k] && fs[k].slot == merged[j] && fs[k].fixes == 0
      && keys[..j + 1] == keys[..j] + [k] && FlushedSome(es, fs - {k}, keys, j + 1, buf + [es[k].page])
  {
    assert keys[j] in keys && KindOk(es[keys[j]]);
    assert keys[..j + 1] == keys[..j] + [keys[j]];
    assert Elems(keys[..j + 1]) == Elems(keys[..j]) + {keys[j]};
  }
}
