/** The PMT thread: its request queue, its event loop over the flash banks, and the calls that other threads make. */
module PmtThread {
  import opened Sets
  import opened PmtStamps
  import opened PmtEntries
  import opened PmtMoves
  import opened PmtCache
  import opened PmtRing
  import opened PmtTable
  import opened PmtLoads
  import opened PmtServices
  import opened PmtUsers
  import opened VpnAllocator

  class Pmt {
    const cache: Cache
    const ring: RequestRing
    const alloc: Allocator
    const banks: nat
    const words: nat               // vps in a PMT page
    // the directory, flash and its banks
    var gtd: seq<Vsp>
    var flash: Flash
    var busy: Busy                 // the banks that are not idle, with their commands
    var complete: set<nat>
    ghost var reserved: set<(nat, nat)>  // the pages of flash that other threads have been given
    // the variables of the thread
    var loading: seq<nat>          // loading_pmt_idxes
    var vsps: seq<Vsp>             // loading_pmt_vsps
    var loadBufs: seq<Page>        // the buffers of the loads
    var flushing: seq<bool>        // whether there is a flush buffer for the bank
    var next: nat                  // next_pmt_idx
    var asleep: bool
    var wakeup: set<nat>           // the banks whose signals wake it
    var signal: bool               // SIG_PMT_LOADED
    ghost var seen: bool           // whether it has had its turn of this pass of the scheduler
    // what it all means
    ghost var back: seq<Page>      // the table as the directory and flash have it
    ghost var table: seq<Page>     // the table as pmt_get_vp would see it
    ghost var fixed: map<nat, nat> // the pages in use by other threads, with the number of uses
    ghost var users: Users         // the same, thread by thread

    // ---- the invariant -------------------------------------------------------------------------------------

    ghost predicate Shape()
      reads this`gtd, this`loading, this`vsps, this`loadBufs, this`flushing, this`busy, this`complete, alloc
    {
      && |loading| == |vsps| == |loadBufs| == |flushing| == banks && 0 < banks
      && |gtd| <= NULL_PMT
      && (forall b | b in busy :: b < banks) && (forall b <- complete :: b < banks)
      && alloc.Valid() && alloc.banks == banks
    }

    /** The objects that the thread and its parts consist of are different ones. */
    ghost predicate Apart() {
      && this as object != cache && ring as object != cache && alloc as object != cache && ring.slots as object != cache
      && this as object !in cache.Arrays() && ring as object !in cache.Arrays() && alloc as object !in cache.Arrays()
      && ring.slots !in cache.Arrays() && this as object != ring && this as object != alloc && ring as object != alloc
    }

    /** What the directory and flash hold, in pages that no other thread can write. */
    ghost predicate Rooted()
      reads this`gtd, this`flash, this`busy, alloc`handed, this`reserved, this`back
    {
      back == Back(gtd, flash, busy, cache.batch, words) && GtdOk(gtd, cache.batch, alloc.handed, reserved)
          && reserved <= alloc.handed
    }

    /** The cache with entries es, the loads and what is behind them agree on the table. */
    ghost predicate Agrees(es: Entries, uses: map<nat, nat>)
      reads this`gtd, this`loading, this`vsps, this`back, this`table
    {
      IsTable(table, es, back) && FixedAre(es, uses) && Holds(es, back, gtd, loading, vsps)
    }

    ghost predicate Current()
      reads this`gtd, this`loading, this`vsps, this`back, this`table, this`fixed, cache`entries
    {
      Agrees(cache.entries, fixed)
    }

    ghost predicate Held()
      reads this`gtd, this`flash, this`busy, alloc`handed, this`reserved, this`loading, this`vsps, this`back, this`table
      reads this`fixed, cache`entries
    {
      Rooted() && Current()
    }

    /** The requests ask for pages that exist. */
    ghost predicate Queued()
      reads this`gtd, this`next, ring, ring.slots
    {
      && (next == NULL_PMT || next < |gtd|)
      && ring.Valid() && forall i | 0 <= i < |ring.queue| :: ring.queue[i] < |gtd|
    }

    ghost predicate Base()
      reads this, alloc, cache, cache.Arrays(), ring, ring.slots
    {
      Apart() && Shape() && Held() && cache.Valid() && Queued()
    }

    /** What the banks that the thread waits for are doing, when it has looked at the first few of them in this pass. */
    ghost predicate LoadsWait(upto: nat)
      reads this`busy, this`complete, this`loading, this`vsps, this`loadBufs, this`back
    {
      LoadBanks(loading, vsps, loadBufs, busy, complete, back, cache.batch, upto)
    }

    ghost predicate FlushesWait(upto: nat)
      reads this`busy, this`complete, this`flushing
    {
      FlushBanks(flushing, busy, complete, upto)
    }

    /** The thread asks for the signals of every bank that it waits for. */
    ghost predicate Watched()
      reads this`loading, this`flushing, this`wakeup
    {
      LoadsWatched(loading, wakeup, banks) && FlushesWatched(flushing, wakeup, banks)
    }

    /** A sleeping thread has no request left, or waits for a bank that is going to wake it. */
    ghost predicate Waiting()
      reads this`next, this`wakeup, this`busy, this`complete, this`seen, ring
    {
      if next == NULL_PMT then ring.queue == []
      else exists b :: b in wakeup && (b in busy || (!seen && b in complete))
    }

    ghost predicate Valid()
      reads this, alloc, cache, cache.Arrays(), ring, ring.slots
    {
      && Base() && Shared()
      && LoadsWait(if seen then banks else 0) && FlushesWait(if seen then banks else 0)
      && (asleep ==> Watched() && Waiting())
    }

    /** The invariant inside the event loop, after the banks have been looked at. */
    ghost predicate Working()
      reads this, alloc, cache, cache.Arrays(), ring, ring.slots
    {
      Base() && LoadsWait(banks) && FlushesWait(banks) && Watched()
    }

    /** Enough pages can be evicted: what the asserts in pmt_cache_evict take for granted. */
    ghost predicate RoomToEvict()
      reads this`fixed
    {
      |fixed| + banks + cache.batch <= cache.n
    }

    /** The threads have fixed the pages that are fixed, each of them at most one for each sub-page of a page; and the
        cache is large enough for that, for the loads and for one merge. */
    ghost predicate Shared()
      reads this`fixed, this`users
    {
      && UsedBy(fixed, users) && Sparing(users, cache.batch)
      && |users| * cache.batch + banks + cache.batch <= cache.n
    }

    /** So there is always enough room. */
    lemma UsersLeaveRoom()
      requires Current() && Shared()
      ensures RoomToEvict()
    {
      forall k <- fixed ensures fixed[k] > 0 {
        assert Fixes(cache.entries, k) == UsesIn(fixed, k);
      }
      FixedAreFew(fixed, users, cache.batch);
    }

    ghost function AtStage(): Stage
      reads this`loading, this`gtd, this`signal, cache`entries
    {
      Stage(cache.entries.Keys, loading, gtd, signal)
    }

    /** A page is loaded exactly if it is in the cache and no bank is loading it. */
    lemma ReadyIsLoaded(k: nat)
      requires Current() && k < NULL_PMT && |vsps| == |loading|
      ensures Ready(AtStage(), k) <==> PmtTable.IsLoaded(cache.entries, k)
      ensures Sound(AtStage())
    {
      forall b: nat | b < |loading| && loading[b] != NULL_PMT
        ensures IsLoading(cache.entries, loading[b]) && loading[b] < |gtd| && gtd[loading[b]].bank == b
      {
        assert LoadEntry(cache.entries, gtd, b, loading[b], vsps[b]);
      }
      if IsLoading(cache.entries, k) {
        assert HasBank(gtd, loading, k);
      }
    }

    lemma NotLoading(k: nat)
      requires Current() && k !in cache.entries && k < NULL_PMT && |vsps| == |loading|
      ensures k !in loading
    {
      forall b: nat | b < |loading| ensures loading[b] != k {
        assert loading[b] == k ==> LoadEntry(cache.entries, gtd, b, loading[b], vsps[b]);
      }
    }

    lemma BankExists(k: nat)
      requires Shape() && Rooted() && k < |gtd| && gtd[k].vspn != 0
      ensures gtd[k].bank < banks
    {
      assert Owned(gtd[k].bank, VpnOf(gtd[k].vspn, cache.batch), alloc.handed, reserved);
    }

    /** The requests that have not been served, the oldest first. */
    ghost function Requests(): seq<nat>
      reads this`next, ring`queue
    {
      (if next == NULL_PMT then [] else [next]) + ring.queue
    }

    /** pmt_thread_init and gtd_init, over an empty cache and an empty queue. */
    constructor (cache: Cache, ring: RequestRing, alloc: Allocator, threads: nat, banks: nat, words: nat, pages: nat)
      requires cache.Valid() && cache.entries == map[] && ring.Valid() && ring.queue == []
      requires ring.slots !in cache.Arrays()
      requires ring as object !in cache.Arrays() && alloc as object !in cache.Arrays()
      requires threads * cache.batch + banks + cache.batch <= cache.n
      requires 0 < banks && pages <= NULL_PMT && alloc.Valid() && alloc.banks == banks && alloc.handed == {}
      ensures Valid() && this.cache == cache && this.ring == ring && this.alloc == alloc
      ensures |table| == pages && fixed == map[] && forall k | 0 <= k < pages :: table[k] == Zeros(words)
    {
      this.cache, this.ring, this.alloc, this.banks, this.words := cache, ring, alloc, banks, words;
      gtd := seq(pages, k => Vsp(0, 0));
      flash, busy, complete, reserved := map[], map[], {}, {};
      loading, vsps := seq(banks, b => NULL_PMT), seq(banks, b => Vsp(0, 0));
      loadBufs, flushing := seq(banks, b => []), seq(banks, b => false);
      next, asleep, wakeup, seen, signal := NULL_PMT, false, {}, true, false;
      users := seq(threads, t => multiset{});
      back := Back(seq(pages, k => Vsp(0, 0)), map[], map[], cache.batch, words);
      table, fixed := Table(map[], Back(seq(pages, k => Vsp(0, 0)), map[], map[], cache.batch, words)), map[];
      new;
      EmptyHolds(gtd, cache.batch, words, loading, vsps, loadBufs);
      NobodyUses(threads);
    }

    // ---- the commands that have been issued --------------------------------------------------------------

    /** The page that bank b was loading is copied into the cache. */
    method CopyLoaded(ghost was: seq<nat>, b: nat, k: nat)
      requires Apart() && cache.Valid() && Holds(cache.entries, back, gtd, was, vsps) && |loadBufs| == |was|
      requires IsTable(table, cache.entries, back) && FixedAre(cache.entries, fixed) && k < |gtd|
      requires b < |was| && was[b] == k != NULL_PMT && loadBufs[b] == back[k] && loading == was[b := NULL_PMT]
      modifies cache, cache.Arrays()
      ensures cache.Valid() && Current() && cache.entries.Keys == old(cache.entries.Keys)
    {
      ghost var es := cache.entries;
      assert LoadEntry(es, gtd, b, k, vsps[b]);
      cache.Load(k, loadBufs[b]);
      SameKeys(es, cache.entries, k, loadBufs[b]);
      FinishHolds(es, cache.entries, back, gtd, was, vsps, k, b);
    }

    /** A load is complete. */
    method FinishLoad(b: nat)
      requires Apart() && cache.Valid() && Current() && |loadBufs| == |loading|
      requires b < |loading| && loading[b] != NULL_PMT && loading[b] < |gtd| && loadBufs[b] == back[loading[b]]
      modifies this`loading, this`signal, cache, cache.Arrays()
      ensures cache.Valid() && Current() && loading == old(loading)[b := NULL_PMT]
      ensures signal && cache.entries.Keys == old(cache.entries.Keys)
    {
      var k := loading[b];
      loading, signal := loading[b := NULL_PMT], true;
      CopyLoaded(old(loading), b, k);
    }

    /** The thread looks at bank b, in the first loop of the handler. */
    method LookForLoad(b: nat)
      requires Apart() && cache.Valid() && Shape() && Current()
      requires LoadsWait(b) && b < banks && LoadsWatched(loading, wakeup, b)
      modifies this`loading, this`wakeup, this`signal, cache, cache.Arrays()
      ensures cache.Valid() && Shape() && Current() && LoadsWait(b + 1) && LoadsWatched(loading, wakeup, b + 1)
      ensures AtStage() == LookedAt(old(AtStage()), complete, b)
    {
      LookAtLoad(loading, vsps, loadBufs, busy, complete, back, cache.batch, b);
      if loading[b] == NULL_PMT {
        return;
      }
      if b in complete {
        FinishLoad(b);
      } else {
        wakeup := wakeup + {b};
      }
    }

    /** The first loop of the handler. */
    method FinishLoads()
      requires Apart() && cache.Valid() && Shape() && Current() && LoadsWait(0)
      modifies this`loading, this`wakeup, this`signal, cache, cache.Arrays()
      ensures cache.Valid() && Shape() && Current() && LoadsWait(banks) && LoadsWatched(loading, wakeup, banks)
      ensures AtStage() == Looked(old(AtStage()), complete, banks)
    {
      for b := 0 to banks
        invariant cache.Valid() && Shape() && Current() && LoadsWait(b) && LoadsWatched(loading, wakeup, b)
        invariant AtStage() == Looked(old(AtStage()), complete, b)
      {
        LookForLoad(b);
      }
    }

    /** The second loop of the handler. */
    method FinishFlushes()
      requires Shape() && FlushesWait(0) && LoadsWatched(loading, wakeup, banks)
      modifies this`flushing, this`wakeup
      ensures Shape() && FlushesWait(banks) && Watched()
    {
      for b := 0 to banks
        invariant Shape() && FlushesWait(b) && LoadsWatched(loading, wakeup, banks)
        invariant FlushesWatched(flushing, wakeup, b)
      {
        LookAtFlush(flushing, busy, complete, b);
        if flushing[b] {
          if b in complete {
            flushing := flushing[b := false];
          } else {
            wakeup := wakeup + {b};
          }
        }
      }
    }

    // ---- requests -------------------------------------------------------------------------------------------

    /** Every idle bank has a free block left to allocate from: the code stops when there is none. */
    ghost predicate Stocked()
      reads this`busy, alloc
    {
      forall b: nat | b < banks && b !in busy :: alloc.HasRoom(b)
    }

    /** The directory now leads to sub-page i of page v for page keys[i]. */
    method RedirectGtd(keys: seq<nat>, b: nat, v: nat)
      requires forall i, j | 0 <= i < j < |keys| :: keys[i] != keys[j]
      requires forall i | 0 <= i < |keys| :: keys[i] < |gtd|
      modifies this`gtd
      ensures Redirected(old(gtd), gtd, keys, b, v, cache.batch)
    {
      for i := 0 to |keys|
        invariant |gtd| == |old(gtd)|
        invariant forall k | 0 <= k < |gtd| && k !in keys[..i] :: gtd[k] == old(gtd)[k]
        invariant forall j | 0 <= j < i :: gtd[keys[j]] == Vsp(b, v * cache.batch + j)
      {
        gtd := gtd[keys[i] := Vsp(b, v * cache.batch + i)];
      }
    }

    /** The full merge buffer goes to idle bank b. */
    method Flush(b: nat)
      requires Apart() && cache.Valid() && cache.mergeSize == cache.batch
      requires Shape() && Held() && LoadsWait(banks) && FlushesWait(banks) && b < banks && b !in busy && Stocked()
      modifies this`gtd, this`busy, alloc, this`flushing, this`back, cache, cache.Arrays()
      ensures cache.Valid() && |cache.entries| < cache.n && cache.entries.Keys <= old(cache.entries.Keys)
      ensures Shape() && Held() && LoadsWait(banks) && FlushesWait(banks) && SameNext(old(cache.entries.Keys), old(gtd))
      ensures flushing == old(flushing)[b := true] && Stocked()
    {
      ghost var es := cache.entries;
      var buf, keys := cache.Flush();
      FlushMakesRoom(es, cache.entries, keys, buf);
      IssueFlush(b, es, keys, buf);
    }

    /** The directory still leads to the page that is asked for, which is not in the cache. */
    ghost predicate SameNext(pages: set<nat>, was: seq<Vsp>)
      reads this`gtd, this`next
    {
      |gtd| == |was| && (next < |gtd| && next !in pages ==> gtd[next] == was[next])
    }

    method IssueFlush(b: nat, ghost es: Entries, keys: seq<nat>, buf: seq<Page>)
      requires Shape() && Rooted() && Agrees(es, fixed) && Flushed(es, cache.entries, keys, buf)
      requires |keys| == cache.batch
      requires LoadsWait(banks) && FlushesWait(banks) && b < banks && b !in busy && Stocked()
      modifies this`gtd, this`busy, alloc, this`flushing, this`back
      ensures Shape() && Held() && LoadsWait(banks) && FlushesWait(banks) && flushing == old(flushing)[b := true]
      ensures Stocked() && SameNext(es.Keys, old(gtd))
    {
      assert forall i | 0 <= i < |keys| :: EvictedIn(es, keys[i]);
      FlushedKnown(es, cache.entries, keys, buf, back);
      var v := ProgramAndRedirect(b, keys, buf);
      FlushIssued(es, cache.entries, keys, buf, old(gtd), gtd, flash, old(busy), complete, loading, vsps, loadBufs,
                  cache.batch, words, b, v, old(alloc.handed), reserved);
      back := Back(gtd, flash, busy, cache.batch, words);
    }

    method ProgramAndRedirect(b: nat, keys: seq<nat>, buf: seq<Page>) returns (v: nat)
      requires b < banks && b !in busy && FlushesWait(banks) && alloc.Valid() && alloc.banks == banks && Stocked()
      requires forall i, j | 0 <= i < j < |keys| :: keys[i] != keys[j]
      requires |flushing| == banks && forall i | 0 <= i < |keys| :: keys[i] < |gtd|
      modifies this`gtd, this`busy, alloc, this`flushing
      ensures v > 0 && (b, v) !in old(alloc.handed) && alloc.handed == old(alloc.handed) + {(b, v)}
      ensures busy == old(busy)[b := Program(v, buf, true)] && flushing == old(flushing)[b := true]
      ensures Redirected(old(gtd), gtd, keys, b, v, cache.batch) && FlushesWait(banks) && alloc.Valid() && Stocked()
    {
      flushing := flushing[b := true];
      v := alloc.Allocate(b, 1);
      busy := busy[b := Program(v, buf, true)];
      RedirectGtd(keys, b, v);
      FlushesUndisturbed(old(flushing), old(busy), complete, b, busy[b], banks);
    }

    /** A page that has never been written: it is all zeros. */
    method PutZeros(k: nat)
      requires Apart() && cache.Valid() && k !in cache.entries && |cache.entries| < cache.n
      requires Shape() && Held() && k < |gtd| && gtd[k].vspn == 0
      modifies cache, cache.Arrays()
      ensures cache.Valid() && Held()
      ensures cache.entries.Keys == old(cache.entries.Keys) + {k}
    {
      ghost var es := cache.entries;
      cache.Put(k);
      ghost var fs := cache.entries;
      cache.Load(k, Zeros(words));
      OneMoreKey(es, fs, cache.entries, k, Zeros(words));
      ZeroHolds(es, fs, cache.entries, back, gtd, loading, vsps, k);
    }

    method LoadZeros(k: nat)
      requires Apart() && cache.Valid() && k !in cache.entries && |cache.entries| < cache.n
      requires Shape() && Held() && k < |gtd| && gtd[k].vspn == 0
      requires LoadsWait(banks) && FlushesWait(banks) && Watched()
      modifies this`signal, cache, cache.Arrays()
      ensures cache.Valid() && Shape() && Held() && LoadsWait(banks) && FlushesWait(banks) && Watched()
      ensures cache.entries.Keys == old(cache.entries.Keys) + {k}
      ensures Starts(old(AtStage()), AtStage(), k)
    {
      NotLoading(k);
      signal := true;
      PutZeros(k);
    }

    /** The read of a page is issued on idle bank b, and a slot of the cache reserved for it. */
    method IssueLoad(k: nat, b: nat)
      requires Apart() && cache.Valid() && k !in cache.entries && |cache.entries| < cache.n
      requires Shape() && Held() && LoadsWait(banks) && FlushesWait(banks)
      requires k < |gtd| && gtd[k].vspn != 0 && gtd[k].bank == b < banks && b !in busy
      modifies this`busy, this`loading, this`vsps, cache, cache.Arrays()
      ensures old(busy).Keys <= busy.Keys
      ensures cache.Valid() && Shape() && Held() && LoadsWait(banks) && FlushesWait(banks)
      ensures old(loading)[b] == NULL_PMT && loading == old(loading)[b := k]
      ensures cache.entries.Keys == old(cache.entries.Keys) + {k}
    {
      ghost var es := cache.entries;
      assert LoadBank(b, loading[b], vsps[b], loadBufs[b], busy, complete, back, cache.batch, banks);
      cache.Put(k);
      IssueRead(k, b, es);
    }

    method IssueRead(k: nat, b: nat, ghost es: Entries)
      requires Shape() && LoadsWait(banks) && FlushesWait(banks) && Rooted() && Agrees(es, fixed)
      requires k !in es && k in cache.entries && cache.entries == es[k := cache.entries[k]]
      requires cache.entries[k].stamp == LOADING_STAMP
      requires k < |gtd| && gtd[k].vspn != 0 && gtd[k].bank == b < banks && b !in busy
      modifies this`busy, this`loading, this`vsps
      ensures old(busy).Keys <= busy.Keys
      ensures Shape() && Held() && LoadsWait(banks) && FlushesWait(banks) && loading == old(loading)[b := k]
    {
      LoadIsHeld(es, cache.entries, gtd, flash, busy, complete, loading, vsps, loadBufs, flushing, cache.batch, words,
          k, b, alloc.handed, reserved);
      busy := busy[b := Read(VpnOf(gtd[k].vspn, cache.batch), SpOf(gtd[k].vspn, cache.batch), true)];
      loading, vsps := loading[b := k], vsps[b := gtd[k]];
    }

    /** A page of the cache is looked up. */
    method LookUp(k: nat) returns (found: bool)
      requires Apart() && cache.Valid() && Current() && k != NULL_PMT
      modifies cache, cache.Arrays()
      ensures cache.Valid() && Current()
      ensures (found <==> k in old(cache.entries)) && (found <==> k in cache.entries)
      ensures if found then LookedUp(old(cache.entries), cache.entries, k) else cache.entries == old(cache.entries)
      ensures cache.entries.Keys == old(cache.entries.Keys)
    {
      ghost var es := cache.entries;
      var i := cache.GetPage(k);
      found := i < cache.n;
      if found {
        LookUpHolds(es, cache.entries, k, back, gtd, loading, vsps);
      }
    }

    /** Room for another page by eviction, unless the merge buffer is full. */
    method EvictPage() returns (mustFlush: bool)
      requires Apart() && cache.Valid() && Shape() && Current() && RoomToEvict()
      modifies cache, cache.Arrays()
      ensures cache.Valid() && Current()
      ensures cache.entries.Keys <= old(cache.entries.Keys)
      ensures if mustFlush then cache.mergeSize == cache.batch && |cache.entries| == cache.n
        else |cache.entries| < cache.n
    {
      ghost var es := cache.entries;
      LoadingFew(es, gtd, loading, vsps);
      FixedSize(es, fixed);
      mustFlush := cache.Evict();
      EvictHolds(es, cache.entries, back, gtd, loading, vsps);
    }

    /** fla_get_idle_bank: any idle bank, or the number of banks if there is none. */
    method IdleBank() returns (b: nat)
      ensures if b < banks then b !in busy else forall c | 0 <= c < banks :: c in busy
    {
      if c: nat :| c < banks && c !in busy {
        b := c;
      } else {
        b := banks;
      }
    }

    /** The thread cannot go on before one of the banks is idle. */
    ghost predicate Stuck()
      reads this`wakeup, this`busy
    {
      exists b :: b in wakeup && b in busy
    }

    ghost predicate BanksBusy()
      reads this`busy
    {
      forall b: nat | b < banks :: b in busy
    }

    /** The thread waits for the bank that it is going to flush to, or for any bank if none is idle. */
    method PickBank() returns (b: nat)
      requires 0 < banks && Watched()
      modifies this`wakeup
      ensures Watched() && if b < banks then b !in busy && b in wakeup else BanksBusy() && Stuck()
    {
      b := IdleBank();
      wakeup := wakeup + if b < banks then {b} else Below(banks);
      assert b >= banks ==> 0 in wakeup && 0 in busy;
    }

    /** The full merge buffer is flushed to an idle bank, if there is one. */
    method FlushToIdle() returns (stop: bool)
      requires Apart() && cache.Valid() && cache.mergeSize == cache.batch && Shape() && Held()
      requires LoadsWait(banks) && FlushesWait(banks) && Watched()
      requires Stocked()
      modifies this`gtd, this`busy, alloc, this`flushing, this`back, this`wakeup, cache, cache.Arrays()
      ensures Stocked()
      ensures cache.Valid() && Shape() && Held()
      ensures LoadsWait(banks) && FlushesWait(banks) && Watched() && SameNext(old(cache.entries.Keys), old(gtd))
      ensures cache.entries.Keys <= old(cache.entries.Keys)
      ensures stop ==> Stuck()
      ensures stop ==> BanksBusy() && |cache.entries| == old(|cache.entries|) && cache.mergeSize == cache.batch
      ensures !stop ==> |cache.entries| < cache.n
    {
      var b := PickBank();
      stop := b >= banks;
      if !stop {
        Flush(b);
      }
    }

    /** Room for another page in a full cache, by dropping a clean page or by flushing the merge buffer. */
    method FreeSome() returns (stop: bool)
      requires Apart() && cache.Valid() && Shape() && Held() && RoomToEvict()
      requires LoadsWait(banks) && FlushesWait(banks) && Watched()
      requires Stocked()
      modifies this`gtd, this`busy, alloc, this`flushing, this`back, this`wakeup, cache, cache.Arrays()
      ensures Stocked()
      ensures cache.Valid() && Shape() && Held()
      ensures LoadsWait(banks) && FlushesWait(banks) && Watched() && SameNext(old(cache.entries.Keys), old(gtd))
      ensures cache.entries.Keys <= old(cache.entries.Keys)
      ensures stop ==> Stuck()
      ensures stop ==> BanksBusy() && |cache.entries| == cache.n && cache.mergeSize == cache.batch
      ensures !stop ==> |cache.entries| < cache.n
    {
      var mustFlush := EvictPage();
      if mustFlush {
        stop := FlushToIdle();
      } else {
        stop := false;
      }
    }

    /** Room for the page that is asked for, in a full cache. */
    method FreeForNext() returns (stop: bool)
      requires Apart() && cache.Valid() && Shape() && Held() && RoomToEvict() && next < |gtd| && next !in cache.entries
      requires LoadsWait(banks) && FlushesWait(banks) && Watched() && Stocked() && |cache.entries| == cache.n
      modifies this`gtd, this`busy, alloc, this`flushing, this`back, this`wakeup, cache, cache.Arrays()
      ensures cache.Valid() && Shape() && Held() && Stocked()
      ensures LoadsWait(banks) && FlushesWait(banks) && Watched()
      ensures stop ==> Stuck() && BanksBusy() && |cache.entries| == cache.n && cache.mergeSize == cache.batch
      ensures !stop ==> |cache.entries| < cache.n
      ensures Roomed(cache.n, old(AtStage()), AtStage(), next)
    {
      stop := FreeSome();
    }

    /** Room for another page. */
    method MakeRoom() returns (stop: bool)
      requires Apart() && cache.Valid() && Shape() && Held() && RoomToEvict() && next < |gtd| && next !in cache.entries
      requires LoadsWait(banks) && FlushesWait(banks) && Watched()
      requires Stocked()
      modifies this`gtd, this`busy, alloc, this`flushing, this`back, this`wakeup, cache, cache.Arrays()
      ensures Stocked()
      ensures cache.Valid() && Shape() && Held()
      ensures LoadsWait(banks) && FlushesWait(banks) && Watched()
      ensures stop ==> Stuck()
      ensures stop ==> BanksBusy() && |cache.entries| == cache.n && cache.mergeSize == cache.batch
      ensures !stop ==> |cache.entries| < cache.n
      ensures Roomed(cache.n, old(AtStage()), AtStage(), next)
    {
      var full := cache.IsFull();
      stop := false;
      if full {
        stop := FreeForNext();
      }
    }

    /** The next request, if there is one. */
    method NextRequest()
      requires Working() && Stocked()
      modifies this`next, ring
      ensures Working() && Stocked() && AtStage() == old(AtStage())
      ensures Requests() == old(ring.queue) && (next == NULL_PMT ==> ring.queue == [])
    {
      next := ring.Pop();
    }

    /** The loading half of a request: zeros at once, or a read of flash when its bank is idle. */
    method StartLoad() returns (stop: bool)
      requires Apart() && cache.Valid() && next !in cache.entries && |cache.entries| < cache.n
      requires Shape() && Held() && LoadsWait(banks) && FlushesWait(banks) && Watched() && next < |gtd|
      modifies this`busy, this`loading, this`vsps, this`wakeup, this`signal, cache, cache.Arrays()
      ensures old(busy).Keys <= busy.Keys
      ensures cache.Valid() && Shape() && Held()
      ensures LoadsWait(banks) && FlushesWait(banks) && Watched()
      ensures if stop then Stuck() && gtd[next].vspn != 0 && gtd[next].bank in busy && AtStage() == old(AtStage())
        else Starts(old(AtStage()), AtStage(), next) && cache.entries.Keys == old(cache.entries.Keys) + {next}
    {
      if gtd[next].vspn == 0 {
        LoadZeros(next);
        return false;
      }
      BankExists(next);
      stop := StartRead();
    }

    method StartRead() returns (stop: bool)
      requires Apart() && cache.Valid() && next !in cache.entries && |cache.entries| < cache.n
      requires Shape() && Held() && LoadsWait(banks) && FlushesWait(banks) && Watched() && next < |gtd|
      requires gtd[next].vspn != 0 && gtd[next].bank < banks
      modifies this`busy, this`loading, this`vsps, this`wakeup, cache, cache.Arrays()
      ensures old(busy).Keys <= busy.Keys
      ensures cache.Valid() && Shape() && Held()
      ensures LoadsWait(banks) && FlushesWait(banks) && Watched()
      ensures if stop then Stuck() && gtd[next].bank in busy && AtStage() == old(AtStage())
        else Starts(old(AtStage()), AtStage(), next) && cache.entries.Keys == old(cache.entries.Keys) + {next}
    {
      var b := gtd[next].bank;
      wakeup := wakeup + {b};
      if b in busy {
        return true;
      }
      IssueLoad(next, b);
      stop := false;
    }

    /** The request has to wait: either the cache is full of pages that cannot be dropped, and no bank is idle for a
        flush of the full merge buffer, or the bank that has the page is busy. */
    ghost predicate Blocked()
      reads this`next, this`gtd, this`busy, cache`entries, cache`mergeSize
    {
      next < |gtd| && next !in cache.entries &&
        if |cache.entries| == cache.n then BanksBusy() && cache.mergeSize == cache.batch
        else gtd[next].vspn != 0 && gtd[next].bank in busy
    }

    /** One request of the event loop. */
    method ProcessRequest() returns (stop: bool)
      requires Apart() && cache.Valid() && Shape() && Held() && RoomToEvict() && next < |gtd|
      requires LoadsWait(banks) && FlushesWait(banks) && Watched()
      requires Stocked()
      modifies this`gtd, this`busy, alloc, this`flushing, this`back, this`loading, this`vsps, this`wakeup, this`signal
      modifies cache, cache.Arrays()
      ensures Stocked()
      ensures cache.Valid() && Shape() && Held() && |gtd| == old(|gtd|)
      ensures LoadsWait(banks) && FlushesWait(banks) && Watched()
      ensures if stop then Stuck() && Blocked() && Stops(cache.n, old(AtStage()), AtStage())
        else Serves(cache.n, old(AtStage()), AtStage(), next)
    {
      var found := LookUp(next);
      if found {
        return false;
      }
      stop := LoadNext();
    }

    /** There is room for the page that is not in the cache. */
    method StartNext(ghost s: Stage) returns (stop: bool)
      requires Apart() && cache.Valid() && |cache.entries| < cache.n && Roomed(cache.n, s, AtStage(), next)
      requires Shape() && Held() && LoadsWait(banks) && FlushesWait(banks) && Watched() && Stocked()
      modifies this`busy, this`loading, this`vsps, this`wakeup, this`signal, cache, cache.Arrays()
      ensures cache.Valid() && Shape() && Held() && Stocked() && |gtd| == old(|gtd|)
      ensures LoadsWait(banks) && FlushesWait(banks) && Watched()
      ensures if stop then Stuck() && Blocked() && Stops(cache.n, s, AtStage()) else Serves(cache.n, s, AtStage(), next)
    {
      stop := StartLoad();
    }

    /** The request is for a page that is not in the cache. */
    method LoadNext() returns (stop: bool)
      requires Apart() && cache.Valid() && Shape() && Held() && RoomToEvict() && next < |gtd|
      requires LoadsWait(banks) && FlushesWait(banks) && Watched() && next !in cache.entries
      requires Stocked()
      modifies this`gtd, this`busy, alloc, this`flushing, this`back, this`loading, this`vsps, this`wakeup, this`signal
      modifies cache, cache.Arrays()
      ensures Stocked()
      ensures cache.Valid() && Shape() && Held() && |gtd| == old(|gtd|)
      ensures LoadsWait(banks) && FlushesWait(banks) && Watched()
      ensures if stop then Stuck() && Blocked() && Stops(cache.n, old(AtStage()), AtStage())
        else Serves(cache.n, old(AtStage()), AtStage(), next)
    {
      ghost var s := AtStage();
      stop := MakeRoom();
      if !stop {
        stop := StartNext(s);
      }
    }

    /** At the end nothing is left, or the next request has to wait. */
    ghost predicate Rest(last: Stage)
      reads this`loading, this`gtd, this`signal, this`next, this`busy, ring`queue, cache`entries, cache`mergeSize
    {
      if next == NULL_PMT then ring.queue == [] && last == AtStage() else Blocked() && Stops(cache.n, last, AtStage())
    }

    method ServeNext(ghost s: Stage) returns (stop: bool, ghost r: Stage)
      requires Working() && RoomToEvict() && Stocked() && next != NULL_PMT && s == AtStage()
      modifies this`gtd, this`busy, alloc, this`flushing, this`back, this`loading, this`vsps, this`wakeup, this`signal
      modifies cache, cache.Arrays()
      ensures Working() && Stocked() && r == AtStage()
      ensures if stop then Stuck() && Rest(s) else Serves(cache.n, s, r, next)
    {
      stop := ProcessRequest();
      r := AtStage();
    }

    /** One round of the event loop. */
    method Round(ghost s: Stage) returns (stop: bool, ghost r: Stage)
      requires Working() && RoomToEvict() && Stocked() && next != NULL_PMT && s == AtStage()
      modifies this`gtd, this`busy, alloc, this`flushing, this`back, this`loading, this`vsps, this`wakeup, this`next
      modifies this`signal, cache, cache.Arrays(), ring
      ensures Working() && Stocked() && (next == NULL_PMT ==> ring.queue == [])
      ensures stop ==> Stuck() && next == old(next) && Rest(s) && ring.queue == old(ring.queue)
      ensures !stop ==> Serves(cache.n, s, r, old(next)) && r == AtStage()
      ensures !stop ==> Requests() == old(ring.queue)
    {
      stop, r := ServeNext(s);
      if !stop {
        NextRequest();
      }
    }

    /** A round, with the account of it. */
    method NextRound(ghost all: seq<nat>, ghost before: seq<Stage>, ghost sofar: seq<nat>)
      returns (stop: bool, ghost stages: seq<Stage>, ghost served: seq<nat>)
      requires Working() && RoomToEvict() && Stocked() && next != NULL_PMT
      requires Accounted(cache.n, before, sofar, all, AtStage(), Requests())
      modifies this`gtd, this`busy, alloc, this`flushing, this`back, this`loading, this`vsps, this`wakeup, this`next
      modifies this`signal, cache, cache.Arrays(), ring
      ensures Working() && Stocked() && (next == NULL_PMT ==> ring.queue == [])
      ensures |stages| == |served| + 1
      ensures stop ==> Stuck() && next != NULL_PMT && Rest(stages[|served|]) && served == sofar
      ensures Accounted(cache.n, stages, served, all, if stop then stages[|served|] else AtStage(), Requests())
      ensures stages[0] == before[0] && (!stop ==> |served| == |sofar| + 1)
    {
      ghost var s, k, r := AtStage(), next, before[0];
      stages, served := before, sofar;
      stop, r := Round(s);
      if !stop {
        OneMoreServed(cache.n, before, sofar, s, r, k);
        MovesOver(all, sofar, k, Requests());
        stages, served := before + [r], sofar + [k];
      }
    }

    /** The loop over the requests. */
    method ServeAll(ghost first: Stage, ghost all: seq<nat>)
      returns (ghost stages: seq<Stage>, ghost served: seq<nat>)
      requires Working() && RoomToEvict() && Stocked() && first == AtStage() && (next == NULL_PMT ==> ring.queue == [])
      requires all == Requests()
      modifies this`gtd, this`busy, alloc, this`flushing, this`back, this`loading, this`vsps, this`wakeup, this`next
      modifies this`signal, cache, cache.Arrays(), ring
      ensures Working() && Stocked() && (next != NULL_PMT ==> Stuck())
      ensures AllServed(cache.n, stages, served) && stages[0] == first
      ensures Parts(all, served, Requests()) && Rest(stages[|served|])
    {
      stages, served := [first], [];
      NothingServed(all);
      var stop := false;
      while next != NULL_PMT && !stop
        invariant Working() && Stocked() && (next == NULL_PMT ==> ring.queue == [])
        invariant |stages| == |served| + 1 && stages[0] == first
        invariant stop ==> Stuck() && next != NULL_PMT && Rest(stages[|served|])
        invariant Accounted(cache.n, stages, served, all, if stop then stages[|served|] else AtStage(), Requests())
        decreases !stop, |all| - |served|
      {
        stop, stages, served := NextRound(all, stages, served);
      }
    }

    /** The requests, as far as the banks allow: the last one first, if it had to wait. */
    method ProcessRequests(ghost first: Stage) returns (ghost stages: seq<Stage>, ghost served: seq<nat>)
      requires Working() && Shared() && Stocked() && first == AtStage()
      modifies this`gtd, this`busy, alloc, this`flushing, this`back, this`loading, this`vsps, this`wakeup, this`next
      modifies this`signal, cache, cache.Arrays(), ring
      ensures Working() && Stocked() && (next != NULL_PMT ==> Stuck())
      ensures AllServed(cache.n, stages, served) && stages[0] == first
      ensures Parts(old(Requests()), served, Requests()) && Rest(stages[|served|])
    {
      UsersLeaveRoom();
      if next == NULL_PMT {
        NextRequest();
      }
      stages, served := ServeAll(first, Requests());
    }

    /** The two loops over the banks. */
    method LookAtBanks() returns (ghost s: Stage)
      requires Apart() && cache.Valid() && Shape() && Current() && LoadsWait(0) && FlushesWait(0)
      modifies this`loading, this`flushing, this`wakeup, this`signal, cache, cache.Arrays()
      ensures cache.Valid() && Shape() && Current() && LoadsWait(banks) && FlushesWait(banks) && Watched()
      ensures s == AtStage() && Looks(old(AtStage()), s, complete)
    {
      wakeup := {};
      AllLooked(AtStage(), complete);
      FinishLoads();
      s := AtStage();
      FinishFlushes();
    }

    /** The end of the handler: the thread sleeps until one of the banks that it is interested in signals. */
    method Sleep()
      requires Working() && Shared() && if next == NULL_PMT then ring.queue == [] else Stuck()
      modifies this`asleep, this`seen
      ensures Valid() && seen && asleep
    {
      asleep, seen := true, true;
    }

    /** The first half of the handler. */
    method LookAround() returns (ghost s: Stage)
      requires Base() && LoadsWait(0) && FlushesWait(0)
      modifies this`loading, this`flushing, this`wakeup, this`signal, cache, cache.Arrays()
      ensures Working() && s == AtStage() && Looks(old(AtStage()), s, complete)
    {
      s := LookAtBanks();
    }

    /** The second half of the handler. */
    method ServeAndSleep(ghost first: Stage) returns (ghost stages: seq<Stage>, ghost served: seq<nat>)
      requires Working() && Shared() && Stocked() && first == AtStage()
      modifies this`gtd, this`busy, alloc, this`flushing, this`back, this`loading, this`vsps, this`wakeup, this`next
      modifies this`asleep, this`seen, this`signal, cache, cache.Arrays(), ring
      ensures Valid() && seen && asleep && AllServed(cache.n, stages, served) && stages[0] == first
      ensures Parts(old(Requests()), served, Requests()) && Rest(stages[|served|])
    {
      stages, served := ProcessRequests(first);
      Sleep();
    }

    /** The handler: one turn of the event loop. */
    method Handler() returns (ghost stages: seq<Stage>, ghost served: seq<nat>)
      requires Base() && Shared() && LoadsWait(0) && FlushesWait(0) && Stocked()
      modifies this`gtd, this`busy, alloc, this`flushing, this`back, this`loading, this`vsps, this`wakeup, this`next
      modifies this`asleep, this`seen, this`signal, cache, cache.Arrays(), ring
      ensures Valid() && seen && asleep
      ensures AllServed(cache.n, stages, served) && Looks(old(AtStage()), stages[0], complete)
      ensures Parts(old(Requests()), served, Requests()) && Rest(stages[|served|])
    {
      ghost var s := LookAround();
      stages, served := ServeAndSleep(s);
    }

    // ---- the scheduler --------------------------------------------------------------------------------------

    /** The signals of the banks have not come: the thread sleeps on. */
    ghost predicate SleepsOn()
      reads this`asleep, this`wakeup, this`busy, this`complete
    {
      asleep && forall b <- wakeup :: b in busy && b !in complete
    }

    method PassedBy()
      requires Valid() && !seen && SleepsOn()
      modifies this`seen
      ensures Valid() && seen && Looks(AtStage(), AtStage(), complete)
    {
      NothingMissed(loading, vsps, loadBufs, flushing, busy, complete, back, cache.batch, wakeup);
      seen := true;
    }

    /** The thread's turn in a pass of the scheduler: it runs if it is runnable or a signal wakes it. If it sleeps on,
        none of the commands that it waits for has ended. The loads that have ended are over then, and requests are
        served in their order until none is left or the next has to wait. */
    method Turn() returns (ghost stages: seq<Stage>, ghost served: seq<nat>)
      requires Valid() && !seen && Stocked()
      modifies this`gtd, this`busy, alloc, this`flushing, this`back, this`loading, this`vsps, this`wakeup, this`next
      modifies this`asleep, this`seen, this`signal, cache, cache.Arrays(), ring
      ensures Valid() && seen
      ensures AllServed(cache.n, stages, served) && Looks(old(AtStage()), stages[0], complete)
      ensures Parts(old(Requests()), served, Requests())
      ensures if old(SleepsOn()) then served == [] && AtStage() == old(AtStage()) else Rest(stages[|served|])
    {
      if asleep && forall b <- wakeup :: b in busy && b !in complete {
        stages, served := [AtStage()], [];
        NothingServed(Requests());
        PassedBy();
      } else {
        stages, served := Handler();
      }
    }

    /** The command of a bank ends. */
    method EndCommand(b: nat)
      requires Shape() && Held() && LoadsWait(0) && FlushesWait(0) && b in busy && b !in complete
      modifies this`flash, this`busy, this`complete, this`loadBufs
      ensures Shape() && Held() && LoadsWait(0) && FlushesWait(0)
      ensures busy == old(busy) - {b} && complete == old(complete) + {b}
    {
      FinishKeepsBack(gtd, flash, busy, cache.batch, words, b);
      BankEnds(cache.entries, gtd, flash, words, loading, vsps, loadBufs, flushing, busy, complete, cache.batch, b);
      var fetched := loadBufs[b];
      match busy[b] {
        case Read(vpn, sp, forPmt) =>
          if forPmt {
            fetched := Sub(if (b, vpn) in flash then flash[(b, vpn)] else [], sp);
          }
        case Program(vpn, data, forPmt) =>
          flash := flash[(b, vpn) := data];
      }
      loadBufs, busy, complete := loadBufs[b := fetched], busy - {b}, complete + {b};
    }

    /** fla_update_bank_state at the start of a pass: the banks in done have finished since the last one. */
    method UpdateBankState(done: set<nat>)
      requires Shape() && Held() && LoadsWait(banks) && FlushesWait(banks) && done <= busy.Keys
      modifies this`flash, this`busy, this`complete, this`loadBufs, this`signal
      ensures Shape() && Held() && LoadsWait(0) && FlushesWait(0)
      ensures busy.Keys == old(busy.Keys) - done && complete == done && !signal
    {
      PassBegins(loading, vsps, loadBufs, flushing, busy, complete, back, cache.batch);
      complete, signal := {}, false;
      EndCommands(done);
    }

    method EndCommands(done: set<nat>)
      requires Shape() && Held() && LoadsWait(0) && FlushesWait(0) && done <= busy.Keys && complete == {}
      modifies this`flash, this`busy, this`complete, this`loadBufs
      ensures Shape() && Held() && LoadsWait(0) && FlushesWait(0)
      ensures busy.Keys == old(busy.Keys) - done && complete == done
    {
      var left := done;
      while left != {}
        invariant Shape() && Held() && LoadsWait(0) && FlushesWait(0)
        invariant left <= done && complete == done - left && busy.Keys == old(busy.Keys) - complete
        decreases |left|
      {
        var b :| b in left;
        EndCommand(b);
        left := left - {b};
      }
    }

    method NextPass(done: set<nat>)
      requires Valid() && seen && done <= busy.Keys
      modifies this`flash, this`busy, this`complete, this`loadBufs, this`seen, this`signal
      ensures Valid() && !seen && !signal && complete == done
    {
      UpdateBankState(done);
      seen := false;
    }

    // ---- other threads ----------------------------------------------------------------------------------------

    /** gc_allocate_new_vpn for user data. */
    method AllocateForOthers(b: nat) returns (v: nat)
      requires Valid() && b < banks && alloc.HasRoom(b)
      modifies alloc, this`reserved
      ensures Valid() && v > 0 && (b, v) !in old(alloc.handed) && reserved == old(reserved) + {(b, v)}
    {
      v := alloc.Allocate(b, 0);
      reserved := reserved + {(b, v)};
      ReserveKeepsGtd(gtd, cache.batch, old(alloc.handed), old(reserved), (b, v));
    }

    /** Another thread issues a command on an idle bank. It programs only pages that it has been given. */
    method OtherCommand(b: nat, c: Command)
      requires Valid() && b < banks && b !in busy && !c.forPmt && (c.Program? ==> (b, c.vpn) in reserved)
      modifies this`busy
      ensures Valid() && busy == old(busy)[b := c]
    {
      OthersKeepBack(gtd, flash, busy, cache.batch, words, b, c, alloc.handed, reserved);
      LoadsUndisturbed(loading, vsps, loadBufs, busy, complete, back, cache.batch, b, c, if seen then banks else 0);
      FlushesUndisturbed(flushing, busy, complete, b, c, if seen then banks else 0);
      busy := busy[b := c];
    }

    // ---- what other threads ask for ---------------------------------------------------------------------------

    /** pmt_is_loaded. */
    method IsLoaded(k: nat) returns (loaded: bool)
      requires Valid() && k < |gtd|
      modifies cache, cache.Arrays()
      ensures Valid() && (loaded <==> PmtTable.IsLoaded(old(cache.entries), k))
      ensures (loaded <==> PmtTable.IsLoaded(cache.entries, k))
    {
      var found := LookUp(k);
      if !found {
        return false;
      }
      loaded := CheckLoaded(k);
    }

    method CheckLoaded(k: nat) returns (loaded: bool)
      requires Apart() && cache.Valid() && Current() && k in cache.entries
      modifies cache, cache.Arrays()
      ensures cache.Valid() && Current()
      ensures (loaded <==> PmtTable.IsLoaded(old(cache.entries), k))
      ensures (loaded <==> PmtTable.IsLoaded(cache.entries, k))
    {
      ghost var es := cache.entries;
      var loading := cache.IsLoading(k);
      LookUpHolds(es, cache.entries, k, back, gtd, this.loading, vsps);
      LookUpKinds(es, cache.entries, k);
      loaded := !loading;
    }

    /** pmt_load: a page that is not in the cache is requested, and the thread woken up. */
    method Request(k: nat)
      requires Valid() && k < |gtd| && ring.size < ring.max
      modifies this`asleep, cache, cache.Arrays(), ring, ring.slots
      ensures Valid()
      ensures if k in old(cache.entries)
        then ring.queue == old(ring.queue)
        else ring.queue == old(ring.queue) + [k] && !asleep
    {
      var found := LookUp(k);
      if !found {
        Wake(k);
      }
    }

    /** pmt_thread_request_enqueue. */
    method Wake(k: nat)
      requires Valid() && k < |gtd| && ring.size < ring.max
      modifies this`asleep, ring, ring.slots
      ensures Valid() && ring.queue == old(ring.queue) + [k] && !asleep
    {
      asleep := false;
      ring.Enqueue(k);
    }

    /** pmt_get_vp of a loaded page: word off of page k in the table. */
    method GetVp(k: nat, off: nat) returns (v: nat)
      requires Valid() && PmtTable.IsLoaded(cache.entries, k) && k < |table| && off < |table[k]|
      modifies cache, cache.Arrays()
      ensures Valid() && v == table[k][off] && PmtTable.IsLoaded(cache.entries, k)
    {
      ghost var es := cache.entries;
      v := cache.ReadWord(k, off);
      LookUpHolds(es, cache.entries, k, back, gtd, loading, vsps);
      LookUpKinds(es, cache.entries, k);
    }

    /** pmt_update_vp of a loaded page: exactly that word of the table changes. */
    method UpdateVp(k: nat, off: nat, v: nat)
      requires Valid() && PmtTable.IsLoaded(cache.entries, k) && k < |table| && off < |table[k]|
      modifies this`table, cache, cache.Arrays()
      ensures Valid() && table == old(table)[k := WithWord(old(table)[k], off, v)]
      ensures PmtTable.IsLoaded(cache.entries, k)
    {
      WriteCached(k, off, v);
    }

    method WriteCached(k: nat, off: nat, v: nat)
      requires Apart() && cache.Valid() && Current() && PmtTable.IsLoaded(cache.entries, k) && k < |table|
      requires off < |table[k]|
      modifies this`table, cache, cache.Arrays()
      ensures cache.Valid() && Current()
      ensures table == old(table)[k := WithWord(old(table)[k], off, v)] && PmtTable.IsLoaded(cache.entries, k)
    {
      ghost var es := cache.entries;
      cache.WriteWord(k, off, v);
      WriteHolds(es, cache.entries, k, WithWord(es[k].page, off, v), back, gtd, loading, vsps, table);
      table := table[k := WithWord(table[k], off, v)];
    }

    /** pmt_fix of a loaded page, by thread t for one of its sub-pages. */
    method Fix(t: nat, k: nat)
      requires Valid() && PmtTable.IsLoaded(cache.entries, k) && t < |users| && |users[t]| < cache.batch
      modifies this`fixed, this`users, cache, cache.Arrays()
      ensures Valid() && fixed == WithUses(old(fixed), k, UsesIn(old(fixed), k) + 1)
      ensures users == old(users)[t := old(users)[t] + multiset{k}]
    {
      FixCached(t, k);
    }

    ghost method AddUse(was: map<nat, nat>, t: nat, k: nat)
      requires UsedBy(was, users) && t < |users| && |users[t]| < cache.batch && Sparing(users, cache.batch)
      requires fixed == WithUses(was, k, UsesIn(was, k) + 1) && |users| * cache.batch + banks + cache.batch <= cache.n
      modifies this`users
      ensures Shared() && users == old(users)[t := old(users)[t] + multiset{k}]
    {
      FixUses(was, users, t, k);
      users := users[t := users[t] + multiset{k}];
    }

    method FixCached(ghost t: nat, k: nat)
      requires Apart() && cache.Valid() && Current() && PmtTable.IsLoaded(cache.entries, k)
      requires Shared() && t < |users| && |users[t]| < cache.batch
      modifies this`fixed, this`users, cache, cache.Arrays()
      ensures cache.Valid() && Current() && fixed == WithUses(old(fixed), k, UsesIn(old(fixed), k) + 1)
      ensures Shared() && users == old(users)[t := old(users)[t] + multiset{k}]
    {
      FixEntry(k);
      AddUse(old(fixed), t, k);
    }

    method FixEntry(k: nat)
      requires Apart() && cache.Valid() && Current() && PmtTable.IsLoaded(cache.entries, k)
      modifies this`fixed, cache, cache.Arrays()
      ensures cache.Valid() && Current() && fixed == WithUses(old(fixed), k, UsesIn(old(fixed), k) + 1)
    {
      ghost var es, was := cache.entries, fixed;
      fixed := WithUses(fixed, k, UsesIn(fixed, k) + 1);
      cache.Fix(k);
      FixHolds(es, cache.entries, k, back, gtd, loading, vsps, was, table);
    }

    /** pmt_unfix, by thread t: the page can be evicted again when its last user has gone. */
    method Unfix(t: nat, k: nat)
      requires Valid() && t < |users| && k in users[t]
      modifies this`fixed, this`users, cache, cache.Arrays()
      ensures Valid() && UsesIn(old(fixed), k) > 0 && fixed == WithUses(old(fixed), k, UsesIn(old(fixed), k) - 1)
      ensures users == old(users)[t := old(users)[t] - multiset{k}]
    {
      UnfixUses(fixed, users, t, k);
      UnfixCached(t, k);
    }

    ghost method DropUse(was: map<nat, nat>, t: nat, k: nat)
      requires UsedBy(was, users) && t < |users| && k in users[t] && Sparing(users, cache.batch)
      requires UsesIn(was, k) > 0 && fixed == WithUses(was, k, UsesIn(was, k) - 1)
      requires |users| * cache.batch + banks + cache.batch <= cache.n
      modifies this`users
      ensures Shared() && users == old(users)[t := old(users)[t] - multiset{k}]
    {
      UnfixUses(was, users, t, k);
      users := users[t := users[t] - multiset{k}];
    }

    method UnfixCached(ghost t: nat, k: nat)
      requires Apart() && cache.Valid() && Current() && UsesIn(fixed, k) > 0
      requires Shared() && t < |users| && k in users[t]
      modifies this`fixed, this`users, cache, cache.Arrays()
      ensures cache.Valid() && Current() && fixed == WithUses(old(fixed), k, UsesIn(old(fixed), k) - 1)
      ensures Shared() && users == old(users)[t := old(users)[t] - multiset{k}]
    {
      UnfixEntry(k);
      DropUse(old(fixed), t, k);
    }

    method UnfixEntry(k: nat)
      requires Apart() && cache.Valid() && Current() && UsesIn(fixed, k) > 0
      modifies this`fixed, cache, cache.Arrays()
      ensures cache.Valid() && Current() && fixed == WithUses(old(fixed), k, UsesIn(old(fixed), k) - 1)
    {
      ghost var es, was := cache.entries, fixed;
      IsFixed(es, was, k);
      fixed := WithUses(fixed, k, UsesIn(fixed, k) - 1);
      cache.Unfix(k);
      UnfixHolds(es, cache.entries, k, back, gtd, loading, vsps, was, table);
    }
  }
}
