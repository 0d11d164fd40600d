/** What a turn of the PMT thread does with the requests, one after the other. */
module PmtServices {
  import opened PmtEntries
  import opened PmtTable

  /** The pages that are in the cache, those of them that the banks are loading, the directory, and whether
      SIG_PMT_LOADED has been set in this pass. */
  datatype Stage = Stage(pages: set<nat>, loading: seq<nat>, gtd: seq<Vsp>, signal: bool)

  /** Page k is in the cache, and no bank is still loading it. */
  predicate Ready(s: Stage, k: nat) { k in s.pages && k !in s.loading }

  /** Each page that is being loaded has its place in the cache, and one bank. */
  ghost predicate Sound(s: Stage) {
    && (forall b: nat | b < |s.loading| && s.loading[b] != NULL_PMT :: s.loading[b] in s.pages)
    && (forall b: nat, c: nat | b < c < |s.loading| && s.loading[b] != NULL_PMT :: s.loading[b] != s.loading[c])
  }

  /** Bank b was loading a page, and its command has ended. */
  predicate EndedAt(loading: seq<nat>, complete: set<nat>, b: nat) {
    b < |loading| && loading[b] != NULL_PMT && b in complete
  }

  /** The thread has looked at bank b. */
  function LookedAt(s: Stage, complete: set<nat>, b: nat): Stage {
    if EndedAt(s.loading, complete, b) then s.(loading := s.loading[b := NULL_PMT], signal := true) else s
  }

  function Looked(s: Stage, complete: set<nat>, upto: nat): Stage {
    if upto == 0 then s else LookedAt(Looked(s, complete, upto - 1), complete, upto - 1)
  }

  /** The loads of the banks that are complete are over; the others, and the pages in the cache, stay. */
  ghost predicate Looks(s: Stage, r: Stage, complete: set<nat>) {
    && r.pages == s.pages && r.gtd == s.gtd && |r.loading| == |s.loading|
    && (forall b: nat | b < |s.loading| :: r.loading[b] == if b in complete then NULL_PMT else s.loading[b])
    && (r.signal <==> s.signal || exists b: nat :: EndedAt(s.loading, complete, b))
  }

  lemma {:induction false} LookedIs(s: Stage, complete: set<nat>, upto: nat)
    requires upto <= |s.loading|
    ensures var r := Looked(s, complete, upto);
      && r.pages == s.pages && r.gtd == s.gtd && |r.loading| == |s.loading|
      && (forall b: nat | b < |s.loading| ::
            r.loading[b] == if b < upto && b in complete then NULL_PMT else s.loading[b])
      && (r.signal <==> s.signal || exists b: nat :: b < upto && EndedAt(s.loading, complete, b))
  {
    if upto == 0 {
    } else {
      LookedIs(s, complete, upto - 1);
      assert EndedAt(Looked(s, complete, upto - 1).loading, complete, upto - 1) <==>
             EndedAt(s.loading, complete, upto - 1);
    }
  }

  lemma AllLooked(s: Stage, complete: set<nat>)
    ensures Looks(s, Looked(s, complete, |s.loading|), complete)
  {
    LookedIs(s, complete, |s.loading|);
    forall b: nat | EndedAt(s.loading, complete, b) ensures b < |s.loading| {
    }
  }

  /** By the turn after the command of its bank has ended, a page is loaded, and the threads that wait are told. */
  lemma LoadEnds(s: Stage, r: Stage, complete: set<nat>, b: nat)
    requires Sound(s) && Looks(s, r, complete) && EndedAt(s.loading, complete, b)
    ensures Ready(r, s.loading[b]) && r.signal
  {
    forall c: nat | c < |r.loading| ensures r.loading[c] != s.loading[b] {
    }
  }

  /** A page that is not in the cache is loaded at once if it has never been written, or else a read of it is issued, on
      its bank, which was loading nothing. */
  ghost predicate Starts(s: Stage, r: Stage, k: nat) {
    && k < |s.gtd| == |r.gtd| && r.gtd[k] == s.gtd[k]
    && if s.gtd[k].vspn == 0 then Ready(r, k) && r.loading == s.loading && r.signal
       else
         var b := s.gtd[k].bank;
         b < |s.loading| && s.loading[b] == NULL_PMT && r.loading == s.loading[b := k] && r.signal == s.signal
  }

  /** A request for page k is served, in a cache of n pages: the page is in the cache then. Other pages leave the cache
      only if it is full. */
  ghost predicate Serves(n: nat, s: Stage, r: Stage, k: nat) {
    && k in r.pages && r.pages <= s.pages + {k}
    && (|s.pages| < n ==> s.pages <= r.pages && r.gtd == s.gtd)
    && (if k in s.pages then r == s else Starts(s, r, k))
  }

  /** A request is left for later. */
  ghost predicate Stops(n: nat, s: Stage, r: Stage) {
    && r.pages <= s.pages && r.loading == s.loading && r.signal == s.signal
    && (|s.pages| < n ==> r == s)
  }

  /** There is room in the cache now; page k, which is not there, is still where it was. */
  ghost predicate Roomed(n: nat, s: Stage, r: Stage, k: nat) {
    && k < |s.gtd| == |r.gtd| && k !in s.pages && r.gtd[k] == s.gtd[k] && Stops(n, s, r)
  }

  ghost predicate AllServed(n: nat, stages: seq<Stage>, served: seq<nat>) {
    && |stages| == |served| + 1
    && forall i {:trigger served[i]} | 0 <= i < |served| :: Serves(n, stages[i], stages[i + 1], served[i])
  }

  /** Of all requests, these have been served, and those have not. */
  predicate Parts(all: seq<nat>, served: seq<nat>, rest: seq<nat>) { all == served + rest }

  /** What has been served, up to the last stage, and the rest make up all requests. */
  ghost predicate Accounted(n: nat, stages: seq<Stage>, served: seq<nat>, all: seq<nat>, last: Stage, rest: seq<nat>) {
    AllServed(n, stages, served) && stages[|served|] == last && Parts(all, served, rest)
  }

  lemma NothingServed(all: seq<nat>)
    ensures Parts(all, [], all)
  {
  }

  lemma MovesOver(all: seq<nat>, served: seq<nat>, k: nat, rest: seq<nat>)
    requires Parts(all, served, [k] + rest)
    ensures Parts(all, served + [k], rest)
  {
  }

  lemma OneMoreServed(n: nat, stages: seq<Stage>, served: seq<nat>, last: Stage, next: Stage, k: nat)
    requires AllServed(n, stages, served) && stages[|served|] == last && Serves(n, last, next, k)
    ensures AllServed(n, stages + [next], served + [k])
  {
    var all, ks := stages + [next], served + [k];
    forall i | 0 <= i < |ks| ensures Serves(n, all[i], all[i + 1], ks[i]) {
      assert i < |served| ==> served[i] == ks[i];
    }
  }
}
