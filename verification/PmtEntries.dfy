/** What the PMT cache holds, as a map from PMT page numbers to entries, and how its arrays represent that map. */
module PmtEntries {
  import opened Sets
  import opened PmtStamps

  const NULL_PMT: nat := 0xFFFF_FFFF

  /** The contents of one PMT page: the vps of its logical sub-pages. */
  type Page = seq<nat>

  datatype Entry = Entry(slot: nat, stamp: nat, dirty: bool, fixes: nat, page: Page)

  type Entries = map<nat, Entry>

  predicate NormalIn(es: Entries, k: nat) { k in es && IsNormal(es[k].stamp) }

  predicate EvictedIn(es: Entries, k: nat) { k in es && es[k].stamp == EVICTED_STAMP }

  // ---- the arrays and the map -------------------------------------------------------------------------

  /** Slot i is free, or holds the entry of PMT page idxes[i]. */
  ghost predicate SlotOk(i: nat, idx: nat, stamp: nat, dirty: bool, fixes: nat, page: Page, es: Entries) {
    if idx == NULL_PMT then stamp == NULL_STAMP && fixes == 0
    else idx in es && es[idx] == Entry(i, stamp, dirty, fixes, page)
  }

  /** The entry of page k is in the slot that it names. */
  ghost predicate Placed(idxes: seq<nat>, es: Entries, k: nat) {
    k in es && es[k].slot < |idxes| && idxes[es[k].slot] == k
  }

  ghost predicate Linked(idxes: seq<nat>, stamps: seq<nat>, dirty: seq<bool>, fixes: seq<nat>, pages: seq<Page>,
                         es: Entries)
  {
    && |stamps| == |idxes| && |dirty| == |idxes| && |fixes| == |idxes| && |pages| == |idxes|
    && NULL_PMT !in es
    && (forall i {:trigger SlotOk(i, idxes[i], stamps[i], dirty[i], fixes[i], pages[i], es)} | 0 <= i < |idxes| ::
          SlotOk(i, idxes[i], stamps[i], dirty[i], fixes[i], pages[i], es))
    && (forall k {:trigger Placed(idxes, es, k)} | k in es :: Placed(idxes, es, k))
  }

  lemma LinkedPut(idxes: seq<nat>, stamps: seq<nat>, dirty: seq<bool>, fixes: seq<nat>, pages: seq<Page>, es: Entries,
                  i: nat, k: nat, e: Entry)
    requires Linked(idxes, stamps, dirty, fixes, pages, es) && i < |idxes| && e.slot == i && k != NULL_PMT
    requires if k in es then idxes[i] == k else idxes[i] == NULL_PMT
    ensures Linked(idxes[i := k], stamps[i := e.stamp], dirty[i := e.dirty], fixes[i := e.fixes], pages[i := e.page],
      es[k := e])
  {
    var idxes', fs := idxes[i := k], es[k := e];
    forall j | 0 <= j < |idxes|
      ensures SlotOk(j, idxes'[j], stamps[i := e.stamp][j], dirty[i := e.dirty][j], fixes[i := e.fixes][j],
        pages[i := e.page][j], fs)
    {
      assert SlotOk(j, idxes[j], stamps[j], dirty[j], fixes[j], pages[j], es);
      assert SlotOk(i, idxes[i], stamps[i], dirty[i], fixes[i], pages[i], es);
    }
    forall j | j in fs ensures Placed(idxes', fs, j) {
      if j != k {
        assert Placed(idxes, es, j);
      }
    }
  }

  /** Writing one of the arrays in the slot of k. */
  lemma LinkedStamp(idxes: seq<nat>, stamps: seq<nat>, dirty: seq<bool>, fixes: seq<nat>, pages: seq<Page>, es: Entries,
                    k: nat, t: nat)
    requires Linked(idxes, stamps, dirty, fixes, pages, es) && Placed(idxes, es, k)
    ensures Linked(idxes, stamps[es[k].slot := t], dirty, fixes, pages, es[k := es[k].(stamp := t)])
  {
    SameSlot(idxes, stamps, dirty, fixes, pages, es, k);
    LinkedPut(idxes, stamps, dirty, fixes, pages, es, es[k].slot, k, es[k].(stamp := t));
  }

  lemma LinkedFixes(idxes: seq<nat>, stamps: seq<nat>, dirty: seq<bool>, fixes: seq<nat>, pages: seq<Page>, es: Entries,
                    k: nat, f: nat)
    requires Linked(idxes, stamps, dirty, fixes, pages, es) && Placed(idxes, es, k)
    ensures Linked(idxes, stamps, dirty, fixes[es[k].slot := f], pages, es[k := es[k].(fixes := f)])
  {
    SameSlot(idxes, stamps, dirty, fixes, pages, es, k);
    LinkedPut(idxes, stamps, dirty, fixes, pages, es, es[k].slot, k, es[k].(fixes := f));
  }

  lemma LinkedDirty(idxes: seq<nat>, stamps: seq<nat>, dirty: seq<bool>, fixes: seq<nat>, pages: seq<Page>, es: Entries,
                    k: nat, d: bool)
    requires Linked(idxes, stamps, dirty, fixes, pages, es) && Placed(idxes, es, k)
    ensures Linked(idxes, stamps, dirty[es[k].slot := d], fixes, pages, es[k := es[k].(dirty := d)])
  {
    SameSlot(idxes, stamps, dirty, fixes, pages, es, k);
    LinkedPut(idxes, stamps, dirty, fixes, pages, es, es[k].slot, k, es[k].(dirty := d));
  }

  lemma LinkedPage(idxes: seq<nat>, stamps: seq<nat>, dirty: seq<bool>, fixes: seq<nat>, pages: seq<Page>, es: Entries,
                   k: nat, p: Page)
    requires Linked(idxes, stamps, dirty, fixes, pages, es) && Placed(idxes, es, k)
    ensures Linked(idxes, stamps, dirty, fixes, pages[es[k].slot := p], es[k := es[k].(page := p)])
  {
    SameSlot(idxes, stamps, dirty, fixes, pages, es, k);
    LinkedPut(idxes, stamps, dirty, fixes, pages, es, es[k].slot, k, es[k].(page := p));
  }

  lemma SameSlot(idxes: seq<nat>, stamps: seq<nat>, dirty: seq<bool>, fixes: seq<nat>, pages: seq<Page>, es: Entries,
                 k: nat)
    requires Linked(idxes, stamps, dirty, fixes, pages, es) && Placed(idxes, es, k)
    ensures var i := es[k].slot; i < |idxes| && idxes[i := k] == idxes && stamps[i := es[k].stamp] == stamps
    ensures var i := es[k].slot;
      dirty[i := es[k].dirty] == dirty && fixes[i := es[k].fixes] == fixes && pages[i := es[k].page] == pages
  {
    EntryAt(idxes, stamps, dirty, fixes, pages, es, k);
  }

  lemma LinkedRemove(idxes: seq<nat>, stamps: seq<nat>, dirty: seq<bool>, fixes: seq<nat>, pages: seq<Page>,
                     es: Entries, i: nat, k: nat, flag: bool)
    requires Linked(idxes, stamps, dirty, fixes, pages, es) && i < |idxes| && k in es && idxes[i] == k && fixes[i] == 0
    ensures Linked(idxes[i := NULL_PMT], stamps[i := NULL_STAMP], dirty[i := flag], fixes, pages, es - {k})
  {
    assert SlotOk(i, idxes[i], stamps[i], dirty[i], fixes[i], pages[i], es);
    forall j | 0 <= j < |idxes|
      ensures SlotOk(j, idxes[i := NULL_PMT][j], stamps[i := NULL_STAMP][j], dirty[i := flag][j], fixes[j], pages[j],
        es - {k})
    {
      assert SlotOk(j, idxes[j], stamps[j], dirty[j], fixes[j], pages[j], es);
    }
    forall j | j in es - {k} ensures Placed(idxes[i := NULL_PMT], es - {k}, j) {
      assert Placed(idxes, es, j);
    }
  }

  /** The entries with other stamps in their slots. */
  ghost function Restamped(es: Entries, stamps: seq<nat>): Entries
    requires forall k | k in es :: es[k].slot < |stamps|
  {
    map k | k in es :: es[k].(stamp := stamps[es[k].slot])
  }

  lemma LinkedRestamp(idxes: seq<nat>, stamps: seq<nat>, dirty: seq<bool>, fixes: seq<nat>, pages: seq<Page>,
                      es: Entries, stamps': seq<nat>)
    requires Linked(idxes, stamps, dirty, fixes, pages, es) && Renumbered(stamps, stamps')
    requires forall k | k in es :: es[k].slot < |stamps'|
    ensures Linked(idxes, stamps', dirty, fixes, pages, Restamped(es, stamps'))
  {
    forall j | 0 <= j < |idxes|
      ensures SlotOk(j, idxes[j], stamps'[j], dirty[j], fixes[j], pages[j], Restamped(es, stamps'))
    {
      assert SlotOk(j, idxes[j], stamps[j], dirty[j], fixes[j], pages[j], es);
    }
    forall j | j in Restamped(es, stamps') ensures Placed(idxes, Restamped(es, stamps'), j) {
      assert Placed(idxes, es, j);
    }
  }

  lemma EntryAt(idxes: seq<nat>, stamps: seq<nat>, dirty: seq<bool>, fixes: seq<nat>, pages: seq<Page>, es: Entries,
                k: nat)
    requires Linked(idxes, stamps, dirty, fixes, pages, es) && k in es
    ensures Placed(idxes, es, k)
    ensures var i := es[k].slot; es[k] == Entry(i, stamps[i], dirty[i], fixes[i], pages[i])
  {
    assert Placed(idxes, es, k);
    var i := es[k].slot;
    assert SlotOk(i, idxes[i], stamps[i], dirty[i], fixes[i], pages[i], es);
  }

  /** While there are fewer entries than slots, a slot is free; when there are as many, none is. */
  lemma FreeSlots(idxes: seq<nat>, stamps: seq<nat>, dirty: seq<bool>, fixes: seq<nat>, pages: seq<Page>, es: Entries)
    requires Linked(idxes, stamps, dirty, fixes, pages, es)
    ensures |es| <= |idxes|
    ensures |es| < |idxes| <==> NULL_PMT in idxes
  {
    forall i | 0 <= i < |idxes| ensures idxes[i] != NULL_PMT ==> idxes[i] in es && es[idxes[i]].slot == i {
      assert SlotOk(i, idxes[i], stamps[i], dirty[i], fixes[i], pages[i], es);
    }
    forall k | k in es ensures es[k].slot < |idxes| && idxes[es[k].slot] == k {
      assert Placed(idxes, es, k);
    }
    var used := set i: nat | i < |idxes| && idxes[i] != NULL_PMT;
    SameSize(es, idxes, used);
    SubsetSize(used, Below(|idxes|));
    if NULL_PMT in idxes {
      var i: nat :| i < |idxes| && idxes[i] == NULL_PMT;
      SubsetSize(used, Below(|idxes|) - {i});
    } else {
      assert used == Below(|idxes|);
    }
  }

  lemma {:induction false} SameSize(es: Entries, idxes: seq<nat>, slots: set<nat>)
    requires forall i <- slots :: i < |idxes| && idxes[i] in es && es[idxes[i]].slot == i
    requires forall k | k in es :: es[k].slot in slots && idxes[es[k].slot] == k
    ensures |es| == |slots|
  {
    if slots != {} {
      var i :| i in slots;
      SameSize(es - {idxes[i]}, idxes, slots - {i});
      assert |es| == |es - {idxes[i]}| + 1 by {
        assert es.Keys == (es - {idxes[i]}).Keys + {idxes[i]};
      }
    } else {
      assert es == map[];
    }
  }

  // ---- the invariant of the cache ---------------------------------------------------------------------

  predicate KindOk(e: Entry) {
    && (IsNormal(e.stamp) || e.stamp in {EVICTED_STAMP, FIXED_STAMP, LOADING_STAMP})
    && (e.fixes > 0 <==> e.stamp == FIXED_STAMP)
    && (e.stamp == EVICTED_STAMP ==> e.dirty)
  }

  /** Normal stamps are distinct and in the past. */
  ghost predicate StampsOk(es: Entries, clock: nat) {
    && clock < NULL_STAMP
    && (forall k | NormalIn(es, k) :: es[k].stamp < clock)
    && (forall j, k | NormalIn(es, j) && NormalIn(es, k) && j != k :: es[j].stamp != es[k].stamp)
  }

  /** keys are the evicted pages, once each, and merged their slots. */
  ghost predicate MergeOk(es: Entries, keys: seq<nat>, merged: seq<nat>) {
    && |merged| == |keys|
    && (forall i, j | 0 <= i < j < |keys| :: keys[i] != keys[j])
    && (forall k :: EvictedIn(es, k) <==> k in keys)
    && (forall i | 0 <= i < |keys| :: keys[i] in es && es[keys[i]].slot == merged[i])
  }

  /** The shortcut to the page used last is empty or right: it never leads to an evicted page, and a normal page
      that it leads to is the most recently used one, so taking it does not change what is evicted next. */
  ghost predicate ShortcutOk(es: Entries, n: nat, lastPmt: nat, lastPage: nat) {
    if lastPmt == NULL_PMT then lastPage == n
    else lastPmt in es && es[lastPmt].slot == lastPage && !EvictedIn(es, lastPmt) && IsNewest(es, lastPmt)
  }

  /** If k is normal, it has the latest stamp. */
  ghost predicate IsNewest(es: Entries, k: nat) {
    NormalIn(es, k) ==> forall j | NormalIn(es, j) && j != k :: es[j].stamp < es[k].stamp
  }

  ghost predicate KindsOk(es: Entries) { forall k | k in es :: KindOk(es[k]) }

  /** The entries and the merge buffer, without the shortcut. */
  ghost predicate CoreOk(es: Entries, clock: nat, keys: seq<nat>, merged: seq<nat>) {
    KindsOk(es) && StampsOk(es, clock) && MergeOk(es, keys, merged)
  }

  // ---- what operations do to the entries -----------------------------------------------------------------

  predicate SameData(e: Entry, f: Entry)
  {
    f.slot == e.slot && f.dirty == e.dirty && f.fixes == e.fixes && f.page == e.page
  }

  /** The other entries keep their kind, and the normal ones their order. */
  ghost predicate OthersInOrder(es: Entries, fs: Entries, k: nat) {
    && fs.Keys == es.Keys
    && (forall j | j in es && j != k :: SameData(es[j], fs[j]) &&
          (if IsNormal(es[j].stamp) then IsNormal(fs[j].stamp) else fs[j].stamp == es[j].stamp))
    && (forall i, j | NormalIn(es, i) && NormalIn(es, j) && i != k && j != k ::
         es[i].stamp < es[j].stamp <==> fs[i].stamp < fs[j].stamp)
  }

  /** k is now the most recently used page, and nothing else has changed. */
  ghost predicate Touched(es: Entries, fs: Entries, k: nat) {
    && k in es && OthersInOrder(es, fs, k) && NormalIn(fs, k) && IsNewest(fs, k)
  }

  /** Looking up a page that can be evicted, or has been, touches it; a page that is loading or fixed is left alone. */
  ghost predicate LookedUp(es: Entries, fs: Entries, k: nat) {
    if NormalIn(es, k) || EvictedIn(es, k) then Touched(es, fs, k) && SameData(es[k], fs[k]) else fs == es
  }

  lemma TouchKeepsSize(es: Entries, fs: Entries, k: nat)
    requires Touched(es, fs, k)
    ensures |fs| == |es|
  {
    assert |fs| == |fs.Keys| && |es| == |es.Keys|;
  }

  lemma NewestIsLookedUp(es: Entries, k: nat)
    requires k in es && !EvictedIn(es, k) && IsNewest(es, k)
    ensures LookedUp(es, es, k)
  {
  }

  lemma LookUpKeepsSize(es: Entries, fs: Entries, k: nat)
    requires k in es && LookedUp(es, fs, k)
    ensures |fs| == |es|
  {
    assert |fs| == |fs.Keys| && |es| == |es.Keys|;
  }

  lemma LookedUpIsNewest(es: Entries, fs: Entries, k: nat)
    requires k in es && LookedUp(es, fs, k)
    ensures k in fs && fs[k].slot == es[k].slot && !EvictedIn(fs, k) && IsNewest(fs, k)
  {
  }

  /** What a touch leaves as it was. */
  lemma TouchKeepsKinds(es: Entries, fs: Entries, k: nat)
    requires Touched(es, fs, k) && KindsOk(es)
    ensures forall j | j in fs && j != k :: KindOk(fs[j])
    ensures forall j | j != k :: EvictedIn(fs, j) <==> EvictedIn(es, j)
    ensures !EvictedIn(fs, k)
    ensures forall j | j in fs && j != k :: fs[j].slot == es[j].slot
  {
  }

  lemma TouchKeepsMerged(es: Entries, fs: Entries, k: nat, keys: seq<nat>, merged: seq<nat>)
    requires Touched(es, fs, k) && fs[k].slot == es[k].slot && !EvictedIn(es, k) && MergeOk(es, keys, merged)
    requires KindsOk(es)
    ensures MergeOk(fs, keys, merged)
  {
    TouchKeepsKinds(es, fs, k);
  }

  /** A list without its member at, whose place the last one takes. */
  ghost function Without(xs: seq<nat>, at: nat): seq<nat>
    requires at < |xs|
  {
    xs[at := xs[|xs| - 1]][..|xs| - 1]
  }

  lemma WithoutOne(xs: seq<nat>, at: nat)
    requires at < |xs| && forall i, j | 0 <= i < j < |xs| :: xs[i] != xs[j]
    ensures forall i, j | 0 <= i < j < |Without(xs, at)| :: Without(xs, at)[i] != Without(xs, at)[j]
    ensures forall x :: x in Without(xs, at) <==> x in xs && x != xs[at]
  {
    var less := Without(xs, at);
    forall x | x in xs && x != xs[at] ensures x in less {
      var i :| 0 <= i < |xs| && xs[i] == x;
      assert x == less[if i == |xs| - 1 then at else i];
    }
    forall x | x in less ensures x in xs && x != xs[at] {
      var i :| 0 <= i < |less| && less[i] == x;
      assert x == xs[if i == at then |xs| - 1 else i];
    }
  }

  /** Revoking an eviction takes the page out of the merge buffer. */
  lemma RevokeKeepsMerged(es: Entries, fs: Entries, k: nat, keys: seq<nat>, merged: seq<nat>, at: nat)
    requires Touched(es, fs, k) && fs[k].slot == es[k].slot && EvictedIn(es, k) && MergeOk(es, keys, merged)
    requires KindsOk(es)
    requires at < |keys| && keys[at] == k
    ensures MergeOk(fs, Without(keys, at), Without(merged, at))
  {
    TouchKeepsKinds(es, fs, k);
    WithoutOne(keys, at);
    var less := Without(keys, at);
    forall i | 0 <= i < |less| ensures less[i] in fs && fs[less[i]].slot == Without(merged, at)[i] {
      assert less[i] in less;
    }
  }

  lemma SlotsDiffer(idxes: seq<nat>, stamps: seq<nat>, dirty: seq<bool>, fixes: seq<nat>, pages: seq<Page>, es: Entries)
    requires Linked(idxes, stamps, dirty, fixes, pages, es)
    ensures forall i, j | i in es && j in es && i != j :: es[i].slot != es[j].slot
  {
    forall i, j | i in es && j in es && i != j ensures es[i].slot != es[j].slot {
      assert Placed(idxes, es, i) && Placed(idxes, es, j);
    }
  }

  /** Stamping with the clock makes a page the most recently used one. */
  lemma StampTouches(es: Entries, clock: nat, k: nat)
    requires k in es && forall j | NormalIn(es, j) && j != k :: es[j].stamp < clock
    requires clock < NULL_STAMP
    ensures Touched(es, es[k := es[k].(stamp := clock)], k)
  {
    var fs := es[k := es[k].(stamp := clock)];
    assert fs.Keys == es.Keys;
  }

  lemma StampStaysOk(es: Entries, clock: nat, k: nat)
    requires StampsOk(es, clock) && k in es
    ensures var fs := es[k := es[k].(stamp := clock)];
      && (forall j | NormalIn(fs, j) :: fs[j].stamp < clock + 1)
      && (forall i, j | NormalIn(fs, i) && NormalIn(fs, j) && i != j :: fs[i].stamp != fs[j].stamp)
  {
    var fs := es[k := es[k].(stamp := clock)];
    forall j | NormalIn(fs, j) && j != k ensures NormalIn(es, j) {
    }
  }

  /** Renumbering the stamps after that changes no order. */
  lemma RestampTouches(es: Entries, fs: Entries, k: nat, stamps: seq<nat>, stamps': seq<nat>)
    requires Touched(es, fs, k) && Renumbered(stamps, stamps')
    requires forall j | j in fs :: fs[j].slot < |stamps| && stamps[fs[j].slot] == fs[j].stamp
    requires forall j | 0 <= j < |stamps| && IsNormal(stamps[j]) :: IsNormal(stamps'[j])
    ensures Touched(es, Restamped(fs, stamps'), k)
  {
    var gs := Restamped(fs, stamps');
    forall i, j | i in fs && j in fs && IsNormal(fs[i].stamp) && IsNormal(fs[j].stamp)
      ensures fs[i].stamp < fs[j].stamp <==> gs[i].stamp < gs[j].stamp
    {
      RenumberingKeepsOrder(stamps, stamps', fs[i].slot, fs[j].slot);
    }
    assert gs.Keys == es.Keys;
    forall i, j | NormalIn(es, i) && NormalIn(es, j) && i != k && j != k
      ensures es[i].stamp < es[j].stamp <==> gs[i].stamp < gs[j].stamp
    {
      assert NormalIn(fs, i) && NormalIn(fs, j);
    }
    forall j | NormalIn(gs, j) && j != k ensures gs[j].stamp < gs[k].stamp {
      assert NormalIn(fs, j);
    }
  }

  lemma RestampStampsOk(fs: Entries, clock: nat, stamps: seq<nat>, stamps': seq<nat>)
    requires Renumbered(stamps, stamps') && clock < NULL_STAMP
    requires forall j | j in fs :: fs[j].slot < |stamps| && stamps[fs[j].slot] == fs[j].stamp
    requires forall j | 0 <= j < |stamps| && IsNormal(stamps[j]) :: stamps'[j] < clock
    requires forall j, k | NormalIn(fs, j) && NormalIn(fs, k) && j != k :: fs[j].stamp != fs[k].stamp
    ensures StampsOk(Restamped(fs, stamps'), clock)
  {
    var gs := Restamped(fs, stamps');
    forall j | NormalIn(gs, j) ensures NormalIn(fs, j) && gs[j].stamp < clock {
      assert IsNormal(stamps[fs[j].slot]);
    }
    forall j, k | NormalIn(gs, j) && NormalIn(gs, k) && j != k ensures gs[j].stamp != gs[k].stamp {
      RenumberingKeepsOrder(stamps, stamps', fs[j].slot, fs[k].slot);
    }
  }
}
