/** The PMT cache: arrays of slots, a merge buffer of evicted pages, and a shortcut to the page used last. */
module PmtCache {
  import opened PmtStamps
  import opened PmtEntries
  import opened PmtMoves

  class Cache {
    const n: nat                     // NUM_PC_SUB_PAGES
    const batch: nat                 // SUB_PAGES_PER_PAGE: the pages that the merge buffer takes
    const idxes: array<nat>          // cached_pmt_idxes
    const stamps: array<nat>         // cached_pmt_timestamps
    const dirty: array<bool>         // cached_pmt_is_dirty
    const fixes: array<nat>          // cached_pmt_fix_count
    const pages: array<Page>         // PC_SUB_PAGE
    const merged: array<nat>         // merged_page_idxes
    var free: nat                    // num_free_sub_pages
    var clock: nat                   // current_timestamp
    var lastPmt: nat
    var lastPage: nat
    var mergeSize: nat
    ghost var entries: Entries
    ghost var chosen: seq<nat>       // the pages in the slots of the merge buffer

    ghost predicate Separate() {
      && idxes != stamps && idxes != fixes && idxes != merged && stamps != fixes && stamps != merged && fixes != merged
      && idxes.Length == n && stamps.Length == n && dirty.Length == n && fixes.Length == n && pages.Length == n
      && merged.Length == batch && 1 <= batch && n + 1 < NULL_STAMP
      && {pages as object} !! {idxes as object, stamps as object, fixes as object, merged as object, dirty as object}
      && {dirty as object} !! {idxes as object, stamps as object, fixes as object, merged as object}
    }

    ghost function Arrays(): set<object> {
      {idxes as object, stamps as object, dirty as object, fixes as object, pages as object, merged as object}
    }

    ghost predicate IsLinked()
      reads this`entries, idxes, stamps, dirty, fixes, pages
    {
      Linked(idxes[..], stamps[..], dirty[..], fixes[..], pages[..], entries)
    }

    ghost predicate Core()
      reads this`entries, this`chosen, this`clock, this`mergeSize, Arrays()
    {
      Separate() && mergeSize <= batch && IsLinked() && CoreOk(entries, clock, chosen, merged[..mergeSize])
    }

    ghost predicate Valid()
      reads this, Arrays()
    {
      Core() && free == n - |entries| && ShortcutOk(entries, n, lastPmt, lastPage)
    }

    constructor (n: nat, batch: nat)
      requires 1 <= batch && n + 1 < NULL_STAMP
      ensures Valid() && entries == map[] && this.n == n && this.batch == batch
      ensures fresh(Arrays())
    {
      this.n, this.batch := n, batch;
      idxes := new nat[n](_ => NULL_PMT);
      stamps := new nat[n](_ => NULL_STAMP);
      dirty := new bool[n](_ => false);
      fixes := new nat[n](_ => 0);
      pages := new Page[n];
      merged := new nat[batch];
      free, clock, lastPmt, lastPage, mergeSize := n, 0, NULL_PMT, n, 0;
      entries, chosen := map[], [];
    }

    // ---- time stamps ------------------------------------------------------------------------------------

    /** The inner search of handle_timestamp_overflow: the least stamp that is at least low, or NULL_STAMP. */
    method LeastFrom(low: nat) returns (least: nat)
      requires Separate()
      ensures least <= NULL_STAMP
      ensures forall j | 0 <= j < n && low <= stamps[j] && IsNormal(stamps[j]) :: least <= stamps[j]
      ensures least != NULL_STAMP ==> low <= least && exists j :: 0 <= j < n && stamps[j] == least
    {
      least := NULL_STAMP;
      for j := 0 to n
        invariant least <= NULL_STAMP
        invariant forall i | 0 <= i < j && low <= stamps[i] && IsNormal(stamps[i]) :: least <= stamps[i]
        invariant least != NULL_STAMP ==> low <= least && exists i :: 0 <= i < n && stamps[i] == least
      {
        if low <= stamps[j] < least {
          least := stamps[j];
        }
      }
    }

    method Replace(from: nat, to: nat)
      requires Separate()
      modifies stamps
      ensures forall j | 0 <= j < n :: stamps[j] == if old(stamps[j]) == from then to else old(stamps[j])
    {
      for k := 0 to n
        invariant forall j | 0 <= j < n :: stamps[j] == if j < k && old(stamps[j]) == from then to else old(stamps[j])
      {
        if stamps[k] == from {
          stamps[k] := to;
        }
      }
    }

    /** handle_timestamp_overflow: the normal stamps become 0, 1, 2, ... in their order, and the clock goes on after
        them. */
    method HandleTimestampOverflow()
      requires Separate()
      modifies this`clock, stamps
      ensures Renumbered(old(stamps[..]), stamps[..]) && clock <= n + 1
      ensures forall j | 0 <= j < n && IsNormal(old(stamps[j])) :: stamps[j] < clock
    {
      ghost var s := stamps[..];
      ghost var done: set<nat> := {};
      var i := 0;
      var low := 0;
      while i < n
        invariant i <= n && low <= i && (i == n ==> low + 1 == n || n == 0)
        invariant Renumbering(s, stamps[..], done, i)
        decreases n - i
      {
        low := i;
        var least := LeastFrom(low);
        if least == NULL_STAMP {
          NoneLeft(s, stamps[..], done, i);
          break;
        }
        NextIsLeast(s, stamps[..], done, i, least);
        ghost var t := stamps[..];
        if least != low {
          Replace(least, low);
        }
        RoundDone(s, t, stamps[..], done, i, least);
        done := done + {least};
        i := i + 1;
      }
      AllDone(s, stamps[..], done, i);
      clock := low + 1;
    }

    // ---- writing one array in the slot of an entry ------------------------------------------------------

    method SetStamp(i: nat, ghost k: nat, t: nat)
      requires Separate() && IsLinked() && k in entries && entries[k].slot == i
      modifies this`entries, stamps
      ensures IsLinked() && entries == old(entries)[k := old(entries)[k].(stamp := t)]
    {
      EntryAt(idxes[..], stamps[..], dirty[..], fixes[..], pages[..], entries, k);
      LinkedStamp(idxes[..], stamps[..], dirty[..], fixes[..], pages[..], entries, k, t);
      stamps[i] := t;
      entries := entries[k := entries[k].(stamp := t)];
    }

    method SetFixes(i: nat, ghost k: nat, f: nat)
      requires Separate() && IsLinked() && k in entries && entries[k].slot == i
      modifies this`entries, fixes
      ensures IsLinked() && entries == old(entries)[k := old(entries)[k].(fixes := f)]
    {
      EntryAt(idxes[..], stamps[..], dirty[..], fixes[..], pages[..], entries, k);
      LinkedFixes(idxes[..], stamps[..], dirty[..], fixes[..], pages[..], entries, k, f);
      fixes[i] := f;
      entries := entries[k := entries[k].(fixes := f)];
    }

    method SetDirtyBit(i: nat, ghost k: nat, d: bool)
      requires Separate() && IsLinked() && k in entries && entries[k].slot == i
      modifies this`entries, dirty
      ensures IsLinked() && entries == old(entries)[k := old(entries)[k].(dirty := d)]
    {
      EntryAt(idxes[..], stamps[..], dirty[..], fixes[..], pages[..], entries, k);
      LinkedDirty(idxes[..], stamps[..], dirty[..], fixes[..], pages[..], entries, k, d);
      dirty[i] := d;
      entries := entries[k := entries[k].(dirty := d)];
    }

    method SetPage(i: nat, ghost k: nat, p: Page)
      requires Separate() && IsLinked() && k in entries && entries[k].slot == i
      modifies this`entries, pages
      ensures IsLinked() && entries == old(entries)[k := old(entries)[k].(page := p)]
    {
      EntryAt(idxes[..], stamps[..], dirty[..], fixes[..], pages[..], entries, k);
      LinkedPage(idxes[..], stamps[..], dirty[..], fixes[..], pages[..], entries, k, p);
      pages[i] := p;
      entries := entries[k := entries[k].(page := p)];
    }

    /** update_timestamp: page k, in slot i, is the most recently used one. */
    method UpdateTimestamp(i: nat, ghost k: nat)
      requires Separate() && IsLinked() && StampsOk(entries, clock) && k in entries && entries[k].slot == i
      modifies this`clock, this`entries, stamps
      ensures IsLinked() && StampsOk(entries, clock)
      ensures Touched(old(entries), entries, k) && SameData(old(entries)[k], entries[k])
    {
      StampTouches(entries, clock, k);
      StampStaysOk(entries, clock, k);
      SetStamp(i, k, clock);
      clock := clock + 1;
      if clock >= NULL_STAMP {
        Overflow(old(entries), k);
      }
    }

    /** The overflow, seen from the entries. */
    method Overflow(ghost es: Entries, ghost k: nat)
      requires Separate() && IsLinked() && Touched(es, entries, k)
      requires forall i, j | NormalIn(entries, i) && NormalIn(entries, j) && i != j ::
        entries[i].stamp != entries[j].stamp
      modifies this`clock, this`entries, stamps
      ensures IsLinked() && StampsOk(entries, clock) && Touched(es, entries, k)
      ensures SameData(old(entries)[k], entries[k])
    {
      ghost var before := stamps[..];
      HandleTimestampOverflow();
      SlotStamps(idxes[..], before, dirty[..], fixes[..], pages[..], entries);
      LinkedRestamp(idxes[..], before, dirty[..], fixes[..], pages[..], entries, stamps[..]);
      RenumberedIsNormal(before, stamps[..], clock);
      RestampTouches(es, entries, k, before, stamps[..]);
      RestampStampsOk(entries, clock, before, stamps[..]);
      entries := Restamped(entries, stamps[..]);
    }

    // ---- looking up pages -----------------------------------------------------------------------------

    /** mem_search_equ_sram on the indexes: a slot that holds k, or n. */
    method Find(k: nat) returns (i: nat)
      requires Separate()
      ensures i <= n && (i < n ==> idxes[i] == k) && (i == n ==> k !in idxes[..])
    {
      if j: nat :| j < n && idxes[j] == k {
        i := j;
      } else {
        i := n;
      }
    }

    method FindPage(k: nat) returns (i: nat)
      requires Separate() && IsLinked() && k != NULL_PMT
      ensures if k in entries then i < n && entries[k].slot == i else i == n
    {
      i := Find(k);
      if i == n {
        NotFound(idxes[..], stamps[..], dirty[..], fixes[..], pages[..], entries, k);
      } else {
        Found(idxes[..], stamps[..], dirty[..], fixes[..], pages[..], entries, k, i);
      }
    }

    /** revoke_eviction: an evicted page that is used again leaves the merge buffer and is normal. */
    method RevokeEviction(i: nat, ghost k: nat)
      requires Core() && k in entries && entries[k].slot == i && EvictedIn(entries, k)
      modifies this`clock, this`mergeSize, this`entries, this`chosen, stamps, merged
      ensures Core()
      ensures Touched(old(entries), entries, k) && SameData(old(entries)[k], entries[k])
    {
      ghost var before, keys := merged[..mergeSize], chosen;
      SlotsDiffer(idxes[..], stamps[..], dirty[..], fixes[..], pages[..], entries);
      var at: nat := 0;
      while at < mergeSize && merged[at] != i
        invariant at <= mergeSize && i !in merged[..at]
      {
        at := at + 1;
      }
      ghost var j :| 0 <= j < |keys| && keys[j] == k;
      assert before[j] == i && keys[at] == k;
      mergeSize := mergeSize - 1;
      chosen := Without(keys, at);
      merged[at] := merged[mergeSize];
      assert merged[..mergeSize] == Without(before, at);
      UpdateTimestamp(i, k);
      RevokeKeepsMerged(old(entries), entries, k, keys, before, at);
      AllKindOk(old(entries), entries, k);
    }

    /** The end of get_page: the page in slot i has been looked at. */
    method Refresh(i: nat, ghost k: nat)
      requires Core() && k in entries && entries[k].slot == i
      modifies this`clock, this`mergeSize, this`entries, this`chosen, stamps, merged
      ensures Core() && LookedUp(old(entries), entries, k)
    {
      ghost var es := entries;
      EntryAt(idxes[..], stamps[..], dirty[..], fixes[..], pages[..], entries, k);
      if stamps[i] == EVICTED_STAMP {
        RevokeEviction(i, k);
      } else if stamps[i] < NULL_STAMP {
        UpdateTimestamp(i, k);
        TouchKeepsMerged(es, entries, k, chosen, merged[..mergeSize]);
        AllKindOk(es, entries, k);
      }
    }

    /** get_page: the slot of page k, or n. Looking at a page makes it the most recently used one. */
    method GetPage(k: nat) returns (i: nat)
      requires Valid() && k != NULL_PMT
      modifies this`clock, this`lastPmt, this`lastPage, this`mergeSize, this`entries, this`chosen, stamps, merged
      ensures Valid()
      ensures if k in old(entries)
        then i < n && LookedUp(old(entries), entries, k) && i == entries[k].slot && lastPmt == k
        else i == n && entries == old(entries)
    {
      if lastPmt == k {
        NewestIsLookedUp(entries, k);
        EntryAt(idxes[..], stamps[..], dirty[..], fixes[..], pages[..], entries, k);
        return lastPage;
      }
      i := Search(k);
      if i < n {
        LookedUpIsNewest(old(entries), entries, k);
        LookUpKeepsSize(old(entries), entries, k);
      }
    }

    /** get_page without the shortcut. */
    method Search(k: nat) returns (i: nat)
      requires Core() && k != NULL_PMT
      modifies this`clock, this`lastPmt, this`lastPage, this`mergeSize, this`entries, this`chosen, stamps, merged
      ensures Core()
      ensures if k in old(entries)
        then i < n && LookedUp(old(entries), entries, k) && lastPmt == k && lastPage == i == old(entries)[k].slot
        else i == n && entries == old(entries) && lastPmt == old(lastPmt) && lastPage == old(lastPage)
    {
      i := FindPage(k);
      if i < n {
        lastPmt, lastPage := k, i;
        Refresh(i, k);
      }
    }

    // ---- free slots ---------------------------------------------------------------------------------------

    /** free_page: the slot of k is free again. Whether clearing its dirty bit succeeds depends on the shift in
        bit_array_clear, so the bit may be left set. */
    method FreePage(i: nat, ghost k: nat)
      requires Separate() && IsLinked() && k in entries && entries[k].slot == i && entries[k].fixes == 0
      modifies this`free, this`lastPmt, this`lastPage, this`entries, idxes, stamps, dirty
      ensures IsLinked() && entries == old(entries) - {k} && free == old(free) + 1
      ensures if old(lastPage) == i
        then lastPage == n && lastPmt == NULL_PMT
        else lastPage == old(lastPage) && lastPmt == old(lastPmt)
    {
      EntryAt(idxes[..], stamps[..], dirty[..], fixes[..], pages[..], entries, k);
      var cleared := *;
      var flag := dirty[i] && !cleared;
      LinkedRemove(idxes[..], stamps[..], dirty[..], fixes[..], pages[..], entries, i, k, flag);
      idxes[i] := NULL_PMT;
      stamps[i] := NULL_STAMP;
      dirty[i] := flag;
      entries := entries - {k};
      if lastPage == i {
        lastPage, lastPmt := n, NULL_PMT;
      }
      free := free + 1;
    }

    method FindFree() returns (i: nat)
      requires Separate() && IsLinked() && |entries| < n
      ensures i < n && idxes[i] == NULL_PMT
    {
      FreeSlots(idxes[..], stamps[..], dirty[..], fixes[..], pages[..], entries);
      i := Find(NULL_PMT);
    }

    /** The writes of pmt_cache_put. */
    method Occupy(i: nat, k: nat)
      requires Separate() && IsLinked() && i < n && idxes[i] == NULL_PMT && k !in entries && k != NULL_PMT
      modifies this`entries, idxes, stamps
      ensures IsLinked() && k in entries && entries == old(entries)[k := entries[k]]
      ensures entries[k].slot == i && entries[k].stamp == LOADING_STAMP && entries[k].fixes == 0
      ensures forall j | j in old(entries) :: old(entries)[j].slot != i
    {
      Unused(idxes[..], stamps[..], dirty[..], fixes[..], pages[..], entries, i);
      ghost var e := Entry(i, LOADING_STAMP, dirty[i], 0, pages[i]);
      LinkedPut(idxes[..], stamps[..], dirty[..], fixes[..], pages[..], entries, i, k, e);
      idxes[i] := k;
      stamps[i] := LOADING_STAMP;
      entries := entries[k := e];
      assert dirty[..] == old(dirty[..])[i := e.dirty] && fixes[..] == old(fixes[..])[i := e.fixes];
      assert pages[..] == old(pages[..])[i := e.page];
    }

    /** pmt_cache_put: a slot is reserved for page k, which is now loading. */
    method Put(k: nat)
      requires Valid() && k != NULL_PMT && k !in entries && free > 0
      modifies this`free, this`lastPmt, this`lastPage, this`entries, idxes, stamps
      ensures Valid() && free == old(free) - 1
      ensures k in entries && entries == old(entries)[k := entries[k]] && entries[k].stamp == LOADING_STAMP
    {
      var i := FindFree();
      Occupy(i, k);
      PutKeepsCore(old(entries), clock, chosen, merged[..mergeSize], k, entries[k]);
      lastPmt, lastPage := k, i;
      free := free - 1;
      assert |entries| == |old(entries)| + 1;
    }

    // ---- loading, fixed and dirty pages -----------------------------------------------------------------

    /** pmt_cache_is_full. */
    method IsFull() returns (full: bool)
      requires Valid()
      ensures full <==> |entries| == n
    {
      full := free == 0;
    }

    /** pmt_cache_is_loading. */
    method IsLoading(k: nat) returns (loading: bool)
      requires Valid() && k in entries
      modifies this`clock, this`lastPmt, this`lastPage, this`mergeSize, this`entries, this`chosen, stamps, merged
      ensures Valid() && LookedUp(old(entries), entries, k)
      ensures loading <==> old(entries)[k].stamp == LOADING_STAMP
    {
      var i := GetPage(k);
      EntryAt(idxes[..], stamps[..], dirty[..], fixes[..], pages[..], entries, k);
      loading := stamps[i] == LOADING_STAMP;
    }

    /** The end of set_loaded and of unfix: the page looked at is normal and the most recently used one. */
    method MakeNormal(i: nat, ghost k: nat)
      requires Valid() && lastPmt == k && k in entries && entries[k].slot == i && !EvictedIn(entries, k)
      requires entries[k].fixes == 0
      modifies this`clock, this`entries, stamps
      ensures Valid() && Touched(old(entries), entries, k) && SameData(old(entries)[k], entries[k])
    {
      UpdateTimestamp(i, k);
      TouchKeepsCore(old(entries), entries, k, old(clock), clock, chosen, merged[..mergeSize]);
      TouchKeepsSize(old(entries), entries, k);
    }

    /** pmt_cache_set_loaded. */
    method SetLoaded(k: nat)
      requires Valid() && k in entries && entries[k].stamp == LOADING_STAMP
      modifies this`clock, this`lastPmt, this`lastPage, this`mergeSize, this`entries, this`chosen, stamps, merged
      ensures Valid() && Touched(old(entries), entries, k) && SameData(old(entries)[k], entries[k])
    {
      var i := GetPage(k);
      MakeNormal(i, k);
    }

    /** The page looked at gets another stamp. */
    method Restamp(i: nat, ghost k: nat, t: nat, f: nat)
      requires Valid() && lastPmt == k && k in entries && entries[k].slot == i && entries[k].stamp != LOADING_STAMP
      requires t == FIXED_STAMP && f > 0
      modifies this`entries, stamps, fixes
      ensures Valid() && entries == old(entries)[k := old(entries)[k].(stamp := t, fixes := f)]
    {
      ghost var e := entries[k].(stamp := t, fixes := f);
      ChangeKeepsCore(entries, clock, chosen, merged[..mergeSize], k, e);
      ChangeKeepsNewest(entries, k, e);
      SetStampAndFixes(i, k, t, f);
    }

    method SetStampAndFixes(i: nat, ghost k: nat, t: nat, f: nat)
      requires Separate() && IsLinked() && k in entries && entries[k].slot == i
      modifies this`entries, stamps, fixes
      ensures IsLinked() && entries == old(entries)[k := old(entries)[k].(stamp := t, fixes := f)]
    {
      SetStamp(i, k, t);
      SetFixes(i, k, f);
      ghost var e := old(entries)[k].(stamp := t, fixes := f);
      assert entries[k] == e && entries == old(entries)[k := old(entries)[k].(stamp := t)][k := e];
    }

    method Recount(i: nat, ghost k: nat, f: nat)
      requires Valid() && lastPmt == k && k in entries && entries[k].slot == i && entries[k].stamp == FIXED_STAMP
      requires f > 0
      modifies this`entries, fixes
      ensures Valid() && entries == old(entries)[k := old(entries)[k].(fixes := f)]
    {
      ghost var e := entries[k].(fixes := f);
      ChangeKeepsCore(entries, clock, chosen, merged[..mergeSize], k, e);
      ChangeKeepsNewest(entries, k, e);
      SetFixes(i, k, f);
    }

    /** pmt_cache_fix: one more user of page k, which is not loading. It cannot be evicted. */
    method Fix(k: nat)
      requires Valid() && k in entries && entries[k].stamp != LOADING_STAMP
      modifies this`clock, this`lastPmt, this`lastPage, this`mergeSize, this`entries, this`chosen, stamps, merged, fixes
      ensures Valid()
      ensures Became(old(entries), entries, k, old(entries)[k].fixes + 1, old(entries)[k].dirty, old(entries)[k].page)
      ensures entries[k].stamp == FIXED_STAMP
    {
      var i := GetPage(k);
      ghost var fs := entries;
      EntryAt(idxes[..], stamps[..], dirty[..], fixes[..], pages[..], entries, k);
      if fixes[i] == 0 {
        Restamp(i, k, FIXED_STAMP, 1);
      } else {
        Recount(i, k, fixes[i] + 1);
      }
      LookUpThenChange(old(entries), fs, entries, k, entries[k]);
    }

    /** pmt_cache_unfix: one user less. With the last one gone the page is normal again, and the most recently used
        one. */
    method Unfix(k: nat)
      requires Valid() && k in entries && entries[k].fixes > 0
      modifies this`clock, this`lastPmt, this`lastPage, this`mergeSize, this`entries, this`chosen, stamps, merged, fixes
      ensures Valid()
      ensures Became(old(entries), entries, k, old(entries)[k].fixes - 1, old(entries)[k].dirty, old(entries)[k].page)
      ensures if entries[k].fixes > 0
        then entries[k].stamp == FIXED_STAMP
        else IsNormal(entries[k].stamp) && IsNewest(entries, k)
    {
      var i := GetPage(k);
      assert entries == old(entries);
      EntryAt(idxes[..], stamps[..], dirty[..], fixes[..], pages[..], entries, k);
      if fixes[i] == 1 {
        LastUnfix(i, k);
      } else {
        Recount(i, k, fixes[i] - 1);
        LookUpThenChange(old(entries), old(entries), entries, k, entries[k]);
      }
    }

    method LastUnfix(i: nat, ghost k: nat)
      requires Valid() && lastPmt == k && k in entries && entries[k].slot == i && entries[k].fixes == 1
      modifies this`clock, this`entries, stamps, fixes
      ensures Valid() && Touched(old(entries), entries, k)
      ensures SameData(old(entries)[k].(fixes := 0), entries[k])
    {
      ReleaseStamp(i, k);
      ghost var fs := old(entries)[k := old(entries)[k].(fixes := 0)];
      ReleaseKeepsCore(old(entries), fs, entries, k, old(clock), clock, chosen, merged[..mergeSize]);
    }

    method ReleaseStamp(i: nat, ghost k: nat)
      requires Separate() && IsLinked() && StampsOk(entries, clock) && k in entries && entries[k].slot == i
      modifies this`clock, this`entries, stamps, fixes
      ensures IsLinked() && StampsOk(entries, clock)
      ensures Touched(old(entries)[k := old(entries)[k].(fixes := 0)], entries, k)
      ensures SameData(old(entries)[k].(fixes := 0), entries[k])
    {
      UnfixKeepsStamps(entries, k, clock);
      SetFixes(i, k, 0);
      UpdateTimestamp(i, k);
    }

    /** Setting the dirty bit of the page looked at. */
    method MarkDirty(i: nat, ghost k: nat)
      requires Valid() && lastPmt == k && k in entries && entries[k].slot == i
      modifies this`entries, dirty
      ensures Valid() && entries == old(entries)[k := old(entries)[k].(dirty := true)]
    {
      ghost var e := entries[k].(dirty := true);
      ChangeKeepsCore(entries, clock, chosen, merged[..mergeSize], k, e);
      ChangeKeepsNewest(entries, k, e);
      SetDirtyBit(i, k, true);
    }

    /** pmt_cache_set_dirty(k, TRUE), the only way it is called. */
    method SetDirty(k: nat)
      requires Valid() && k in entries
      modifies this`clock, this`lastPmt, this`lastPage, this`mergeSize, this`entries, this`chosen, stamps, merged, dirty
      ensures Valid() && lastPmt == k
      ensures Became(old(entries), entries, k, old(entries)[k].fixes, true, old(entries)[k].page)
      ensures entries[k].stamp == LOADING_STAMP <==> old(entries)[k].stamp == LOADING_STAMP
    {
      var i := GetPage(k);
      ghost var fs := entries;
      MarkDirty(i, k);
      LookUpThenChange(old(entries), fs, entries, k, entries[k]);
    }

    /** A write into the buffer of the page looked at. */
    method WritePage(i: nat, ghost k: nat, p: Page)
      requires Valid() && lastPmt == k && k in entries && entries[k].slot == i
      modifies this`entries, pages
      ensures Valid() && entries == old(entries)[k := old(entries)[k].(page := p)]
    {
      ghost var e := entries[k].(page := p);
      ChangeKeepsCore(entries, clock, chosen, merged[..mergeSize], k, e);
      ChangeKeepsNewest(entries, k, e);
      SetPage(i, k, p);
    }

    // ---- eviction and flush ----------------------------------------------------------------------------

    /** mem_search_min_max: a slot with the least stamp. */
    method LeastSlot() returns (i: nat)
      requires Separate() && n > 0
      ensures i < n && forall j | 0 <= j < n :: stamps[i] <= stamps[j]
    {
      i := 0;
      for j := 1 to n
        invariant i < n && forall h | 0 <= h < j :: stamps[i] <= stamps[h]
      {
        if stamps[j] < stamps[i] {
          i := j;
        }
      }
    }

    /** The least recently used page of a full cache. */
    method Oldest() returns (i: nat, ghost k: nat)
      requires Core() && |entries| == n
      requires |KeysOf(entries, FIXED_STAMP)| + |KeysOf(entries, LOADING_STAMP)| + mergeSize < n
      ensures IsOldest(entries, k) && entries[k].slot == i && i < n && dirty[i] == entries[k].dirty
      ensures k != NULL_PMT
    {
      SomeNormal(entries, chosen, merged[..mergeSize]);
      FreeSlots(idxes[..], stamps[..], dirty[..], fixes[..], pages[..], entries);
      i := LeastSlot();
      k := idxes[i];
      assert idxes[i] in idxes[..];
      Found(idxes[..], stamps[..], dirty[..], fixes[..], pages[..], entries, k, i);
      LeastIsOldest(idxes[..], stamps[..], dirty[..], fixes[..], pages[..], entries, i, k);
    }

    /** The shortcut is dropped when it leads to page k, in slot i, which is going. */
    method DropShortcut(i: nat, ghost k: nat)
      requires ShortcutOk(entries, n, lastPmt, lastPage) && NormalIn(entries, k) && entries[k].slot == i
      modifies this`lastPmt, this`lastPage
      ensures ShortcutOk(entries[k := entries[k].(stamp := EVICTED_STAMP)], n, lastPmt, lastPage)
    {
      MarkKeepsShortcut(entries, n, lastPmt, lastPage, k, i);
      if i == lastPage {
        lastPage, lastPmt := n, NULL_PMT;
      }
    }

    /** A dirty page moves to the merge buffer. */
    method Mark(i: nat, ghost k: nat)
      requires Core() && mergeSize < batch && NormalIn(entries, k) && entries[k].slot == i && entries[k].dirty
      modifies this`mergeSize, this`entries, this`chosen, stamps, merged
      ensures Core() && entries == old(entries)[k := old(entries)[k].(stamp := EVICTED_STAMP)]
      ensures mergeSize == old(mergeSize) + 1
    {
      MarkKeepsCore(entries, clock, chosen, merged[..mergeSize], k);
      SetStamp(i, k, EVICTED_STAMP);
      merged[mergeSize] := i;
      mergeSize := mergeSize + 1;
      chosen := chosen + [k];
      assert merged[..mergeSize] == old(merged[..mergeSize]) + [i];
    }

    method Merge(i: nat, ghost k: nat)
      requires Valid() && mergeSize < batch && NormalIn(entries, k) && entries[k].slot == i && entries[k].dirty
      modifies this`lastPmt, this`lastPage, this`mergeSize, this`entries, this`chosen, stamps, merged
      ensures Valid() && entries == old(entries)[k := old(entries)[k].(stamp := EVICTED_STAMP)]
      ensures mergeSize == old(mergeSize) + 1
    {
      PutSize(entries, k, entries[k].(stamp := EVICTED_STAMP));
      DropShortcut(i, k);
      Mark(i, k);
    }

    /** A clean page is dropped. */
    method Drop(i: nat, ghost k: nat)
      requires Valid() && NormalIn(entries, k) && entries[k].slot == i && entries[k].fixes == 0
      modifies this`free, this`lastPmt, this`lastPage, this`entries, idxes, stamps, dirty
      ensures Valid() && entries == old(entries) - {k}
    {
      DropKeepsCore(entries, clock, chosen, merged[..mergeSize], k);
      DropKeepsShortcut(entries, n, lastPmt, lastPage, k, i);
      DropSize(entries, k);
      FreePage(i, k);
    }

    /** One round of pmt_cache_evict: the least recently used page is dropped if it is clean, and merged otherwise. */
    method EvictOne() returns (dropped: bool, ghost k: nat)
      requires Valid() && |entries| == n && mergeSize < batch
      requires |KeysOf(entries, FIXED_STAMP)| + |KeysOf(entries, LOADING_STAMP)| + batch <= n
      modifies this`free, this`lastPmt, this`lastPage, this`mergeSize, this`entries, this`chosen, idxes, stamps, dirty
      modifies merged
      ensures Valid() && IsOldest(old(entries), k) && (dropped <==> !old(entries)[k].dirty)
      ensures entries == if dropped then old(entries) - {k} else
        old(entries)[k := old(entries)[k].(stamp := EVICTED_STAMP)]
      ensures mergeSize == if dropped then old(mergeSize) else old(mergeSize) + 1
    {
      var i;
      i, k := Oldest();
      dropped := !dirty[i];
      if dropped {
        Drop(i, k);
      } else {
        Merge(i, k);
      }
    }

    /** pmt_cache_evict: makes room by dropping the least recently used clean page. Pages that have been used even less
        recently are dirty and go to the merge buffer, until it is full. */
    method Evict() returns (mustFlush: bool)
      requires Valid() && |KeysOf(entries, FIXED_STAMP)| + |KeysOf(entries, LOADING_STAMP)| + batch <= n
      modifies this`free, this`lastPmt, this`lastPage, this`mergeSize, this`entries, this`chosen, idxes, stamps, dirty
      modifies merged
      ensures Valid() && Evicting(old(entries), entries) && SameKinds(old(entries), entries)
      ensures if mustFlush then mergeSize == batch && |entries| == |old(entries)| == n else |entries| < n
      ensures if mustFlush then entries.Keys == old(entries).Keys
        else if |old(entries)| < n then entries == old(entries) else DropsOne(old(entries), entries)
    {
      if free != 0 {
        return false;
      }
      while mergeSize < batch
        invariant Valid() && Evicting(old(entries), entries) && SameKinds(old(entries), entries)
        invariant |entries| == n && entries.Keys == old(entries).Keys
        decreases batch - mergeSize
      {
        ghost var before, k := entries, 0;
        var dropped;
        dropped, k := EvictOne();
        if dropped {
          DropTaken(old(entries), before, k);
          return false;
        }
        MarkTaken(old(entries), before, k);
      }
      mustFlush := true;
    }

    /** The page in slot i is copied out and freed. */
    method FlushOne(i: nat, ghost k: nat) returns (key: nat, page: Page)
      requires Separate() && IsLinked() && k in entries && entries[k].slot == i && entries[k].fixes == 0
      requires free == n - |entries|
      modifies this`free, this`lastPmt, this`lastPage, this`entries, idxes, stamps, dirty
      ensures IsLinked() && entries == old(entries) - {k} && free == n - |entries|
      ensures key == k && page == old(entries)[k].page
      ensures if old(lastPage) == i
        then lastPage == n && lastPmt == NULL_PMT
        else lastPage == old(lastPage) && lastPmt == old(lastPmt)
    {
      EntryAt(idxes[..], stamps[..], dirty[..], fixes[..], pages[..], entries, k);
      key := idxes[i];
      page := pages[i];
      FreePage(i, k);
      assert old(entries).Keys == entries.Keys + {k};
    }

    /** pmt_cache_flush: the pages in the merge buffer are copied out, with their numbers, and leave the cache. */
    method Flush() returns (buf: seq<Page>, keys: seq<nat>)
      requires Valid() && mergeSize == batch
      modifies this`free, this`lastPmt, this`lastPage, this`mergeSize, this`entries, this`chosen, idxes, stamps, dirty
      ensures Valid() && Flushed(old(entries), entries, keys, buf) && |keys| == batch
    {
      buf, keys := FlushAll();
      FlushKeepsCore(old(entries), entries, clock, chosen, merged[..batch], buf);
      mergeSize := 0;
      chosen := [];
      assert merged[..mergeSize] == [];
    }

    /** One round of the loop of pmt_cache_flush. */
    method FlushRound(ghost es: Entries, j: nat, before: seq<nat>, bufBefore: seq<Page>)
      returns (keys: seq<nat>, buf: seq<Page>)
      requires Separate() && IsLinked() && free == n - |entries| && ShortcutOk(entries, n, lastPmt, lastPage)
      requires |chosen| == batch && j < batch && CoreOk(es, clock, chosen, merged[..batch])
      requires before == chosen[..j] && FlushedSome(es, entries, chosen, j, bufBefore)
      modifies this`free, this`lastPmt, this`lastPage, this`entries, idxes, stamps, dirty
      ensures IsLinked() && free == n - |entries| && ShortcutOk(entries, n, lastPmt, lastPage)
      ensures keys == chosen[..j + 1] && FlushedSome(es, entries, chosen, j + 1, buf)
    {
      FlushNext(es, entries, clock, chosen, merged[..batch], j, bufBefore);
      DropKeepsShortcut(entries, n, lastPmt, lastPage, chosen[j], merged[j]);
      var key, page := FlushOne(merged[j], chosen[j]);
      keys, buf := before + [key], bufBefore + [page];
    }

    /** The loop of pmt_cache_flush. */
    method FlushAll() returns (buf: seq<Page>, keys: seq<nat>)
      requires Separate() && IsLinked() && free == n - |entries| && ShortcutOk(entries, n, lastPmt, lastPage)
      requires |chosen| == batch && CoreOk(entries, clock, chosen, merged[..batch])
      modifies this`free, this`lastPmt, this`lastPage, this`entries, idxes, stamps, dirty
      ensures IsLinked() && free == n - |entries| && ShortcutOk(entries, n, lastPmt, lastPage)
      ensures FlushedSome(old(entries), entries, chosen, batch, buf) && keys == chosen
    {
      buf, keys := [], [];
      for j := 0 to batch
        invariant IsLinked() && free == n - |entries| && ShortcutOk(entries, n, lastPmt, lastPage)
        invariant keys == chosen[..j] && FlushedSome(old(entries), entries, chosen, j, buf)
      {
        keys, buf := FlushRound(old(entries), j, keys, buf);
      }
    }

    // ---- contents ------------------------------------------------------------------------------------------

    /** The content of a loading page arrives in its buffer, and the page is loaded. */
    method Load(k: nat, p: Page)
      requires Valid() && k in entries && entries[k].stamp == LOADING_STAMP
      modifies this, Arrays()
      ensures Valid()
      ensures Touched(old(entries)[k := old(entries)[k].(page := p)], entries, k)
      ensures SameData(old(entries)[k].(page := p), entries[k])
    {
      var i := GetPage(k);
      WritePage(i, k, p);
      SetLoaded(k);
    }

    /** read_dram_32 from the buffer of page k. */
    method ReadWord(k: nat, off: nat) returns (v: nat)
      requires Valid() && k in entries && off < |entries[k].page|
      modifies this, Arrays()
      ensures Valid() && LookedUp(old(entries), entries, k)
      ensures v == old(entries)[k].page[off]
    {
      var i := GetPage(k);
      EntryAt(idxes[..], stamps[..], dirty[..], fixes[..], pages[..], entries, k);
      v := pages[i][off];
    }

    /** pmt_update_vp: the page is marked dirty, and the word written. */
    method WriteWord(k: nat, off: nat, v: nat)
      requires Valid() && k in entries && off < |entries[k].page|
      modifies this, Arrays()
      ensures Valid()
      ensures Became(old(entries), entries, k, old(entries)[k].fixes, true, old(entries)[k].page[off := v])
      ensures entries[k].stamp == LOADING_STAMP <==> old(entries)[k].stamp == LOADING_STAMP
    {
      var i := GetPage(k);
      ghost var fs := entries;
      SetDirty(k);
      ghost var gs := entries;
      LookUpThenBecame(old(entries), fs, gs, k, old(entries)[k].fixes, true, old(entries)[k].page);
      StoreWord(i, k, off, v);
      BecameThenPage(old(entries), gs, k, old(entries)[k].fixes, true, old(entries)[k].page,
          old(entries)[k].page[off := v]);
    }

    /** write_dram_32 into the buffer of the page looked at. */
    method StoreWord(i: nat, ghost k: nat, off: nat, v: nat)
      requires Valid() && lastPmt == k && k in entries && entries[k].slot == i && off < |entries[k].page|
      modifies this`entries, pages
      ensures Valid() && entries == old(entries)[k := old(entries)[k].(page := old(entries)[k].page[off := v])]
    {
      EntryAt(idxes[..], stamps[..], dirty[..], fixes[..], pages[..], entries, k);
      WritePage(i, k, pages[i][off := v]);
    }
  }

  lemma Unused(idxes: seq<nat>, stamps: seq<nat>, dirty: seq<bool>, fixes: seq<nat>, pages: seq<Page>, es: Entries,
               i: nat)
    requires Linked(idxes, stamps, dirty, fixes, pages, es) && i < |idxes| && idxes[i] == NULL_PMT
    ensures fixes[i] == 0 && stamps[i] == NULL_STAMP
    ensures forall j | j in es :: es[j].slot != i
  {
    assert SlotOk(i, idxes[i], stamps[i], dirty[i], fixes[i], pages[i], es);
    forall j | j in es ensures es[j].slot != i {
      assert Placed(idxes, es, j);
    }
  }

  lemma Found(idxes: seq<nat>, stamps: seq<nat>, dirty: seq<bool>, fixes: seq<nat>, pages: seq<Page>, es: Entries,
              k: nat, i: nat)
    requires Linked(idxes, stamps, dirty, fixes, pages, es) && k != NULL_PMT && i < |idxes| && idxes[i] == k
    ensures k in es && es[k] == Entry(i, stamps[i], dirty[i], fixes[i], pages[i])
  {
    assert SlotOk(i, idxes[i], stamps[i], dirty[i], fixes[i], pages[i], es);
  }

  lemma NotFound(idxes: seq<nat>, stamps: seq<nat>, dirty: seq<bool>, fixes: seq<nat>, pages: seq<Page>, es: Entries,
                 k: nat)
    requires Linked(idxes, stamps, dirty, fixes, pages, es) && k !in idxes
    ensures k !in es
  {
    assert k in es ==> Placed(idxes, es, k);
  }

  lemma AllKindOk(es: Entries, fs: Entries, k: nat)
    requires KindsOk(es) && Touched(es, fs, k) && fs[k].fixes == 0
    ensures KindsOk(fs)
  {
    TouchKeepsKinds(es, fs, k);
  }

  lemma SlotStamps(idxes: seq<nat>, stamps: seq<nat>, dirty: seq<bool>, fixes: seq<nat>, pages: seq<Page>, es: Entries)
    requires Linked(idxes, stamps, dirty, fixes, pages, es)
    ensures forall j | j in es :: es[j].slot < |stamps| && stamps[es[j].slot] == es[j].stamp
  {
    forall j | j in es ensures es[j].slot < |stamps| && stamps[es[j].slot] == es[j].stamp {
      EntryAt(idxes, stamps, dirty, fixes, pages, es, j);
    }
  }

  lemma RenumberedIsNormal(s: seq<nat>, t: seq<nat>, clock: nat)
    requires Renumbered(s, t) && clock < NULL_STAMP
    requires forall j | 0 <= j < |s| && IsNormal(s[j]) :: t[j] < clock
    ensures forall j | 0 <= j < |s| && IsNormal(s[j]) :: IsNormal(t[j])
  {
  }

  lemma NoneLeft(s: seq<nat>, t: seq<nat>, done: set<nat>, i: nat)
    requires Renumbering(s, t, done, i)
    requires forall j | 0 <= j < |t| && i <= t[j] && IsNormal(t[j]) :: NULL_STAMP <= t[j]
    ensures NormalStamps(s) <= done
  {
    forall j | 0 <= j < |s| && IsNormal(s[j]) ensures s[j] in done {
      DoneRank(s, done, i, s[j]);
      assert s[j] in NormalStamps(s);
    }
  }

  lemma NextIsLeast(s: seq<nat>, t: seq<nat>, done: set<nat>, i: nat, least: nat)
    requires Renumbering(s, t, done, i) && i <= least < NULL_STAMP
    requires forall j | 0 <= j < |t| && i <= t[j] && IsNormal(t[j]) :: least <= t[j]
    requires exists j :: 0 <= j < |t| && t[j] == least
    ensures least in NormalStamps(s) && least !in done
    ensures forall w | w in NormalStamps(s) && w !in done :: least <= w
  {
    var j :| 0 <= j < |t| && t[j] == least;
    DoneRank(s, done, i, s[j]);
    assert s[j] !in done && s[j] == least;
    forall w | w in NormalStamps(s) && w !in done ensures least <= w {
      var k :| 0 <= k < |s| && IsNormal(s[k]) && s[k] == w;
      DoneRank(s, done, i, w);
      assert t[k] == w;
    }
  }
}
