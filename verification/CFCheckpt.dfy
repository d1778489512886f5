/** The cache of committed-filter checkpoints (BIP 157, sections getcfcheckpt and
    cfcheckpt).  A request walks the cache back to the last entry that still lies on the
    requested chain and trusts everything below it. */
module CFCheckpt {
  import opened Wire
  import opened Chain

  const INTERVAL: nat := 1000

  /** The filter header the index holds for a block. */
  type Index = Hash -> Hash

  datatype Entry = Entry(blockHash: Hash, filterHeader: Hash)

  /** How the index answers one batch of lookups: completely, not at all, or with a
      missing header at position k of the batch. */
  datatype Answer = Complete | LookupError | MissingAt(k: nat)

  /** Ancestors of `stop` at the positive multiples of the interval. */
  function IntervalHashes(tree: Tree, stop: Hash): (hashes: seq<Hash>)
    requires ValidTree(tree) && stop in tree
    ensures |hashes| == tree[stop].height / INTERVAL
  {
    seq(tree[stop].height / INTERVAL,
        k requires 0 <= k < tree[stop].height / INTERVAL => MainChain(tree, stop)[(k + 1) * INTERVAL])
  }

  function Direct(index: Index, hashes: seq<Hash>): (headers: seq<Hash>)
    ensures |headers| == |hashes| && forall k :: 0 <= k < |hashes| ==> headers[k] == index(hashes[k])
  {
    seq(|hashes|, k requires 0 <= k < |hashes| => index(hashes[k]))
  }

  function Entries(index: Index, hashes: seq<Hash>): (entries: seq<Entry>)
    ensures |entries| == |hashes|
    ensures forall k :: 0 <= k < |hashes| ==> entries[k] == Entry(hashes[k], index(hashes[k]))
  {
    seq(|hashes|, k requires 0 <= k < |hashes| => Entry(hashes[k], index(hashes[k])))
  }

  /** The cache lists the interval ancestors of one single block. */
  ghost predicate Coherent(tree: Tree, index: Index, cache: seq<Entry>)
    requires ValidTree(tree)
  {
    cache == [] || exists tip :: tip in tree && cache == Entries(index, IntervalHashes(tree, tip))
  }

  /** The number of leading entries a request trusts: up to the last position at which
      cache and chain hold the same block. */
  function Fork(cache: seq<Entry>, hashes: seq<Hash>, n: nat): (f: nat)
    requires n <= |cache| && n <= |hashes|
    ensures f <= n
    ensures f > 0 ==> cache[f - 1].blockHash == hashes[f - 1]
    ensures forall k :: f <= k < n ==> cache[k].blockHash != hashes[k]
  {
    if n == 0 || cache[n - 1].blockHash == hashes[n - 1] then n else Fork(cache, hashes, n - 1)
  }

  function ForkOf(cache: seq<Entry>, hashes: seq<Hash>): (f: nat)
    ensures f <= |cache| && f <= |hashes|
    ensures f > 0 ==> cache[f - 1].blockHash == hashes[f - 1]
    ensures forall k :: f <= k < |cache| && k < |hashes| ==> cache[k].blockHash != hashes[k]
  {
    Fork(cache, hashes, if |cache| < |hashes| then |cache| else |hashes|)
  }

  /** The reply a cache produces: its own headers below the fork, looked-up ones above. */
  function Reply(cache: seq<Entry>, index: Index, hashes: seq<Hash>): (headers: seq<Hash>)
    ensures |headers| == |hashes|
    ensures forall k :: 0 <= k < |hashes| ==>
      headers[k] == if k < ForkOf(cache, hashes) then cache[k].filterHeader else index(hashes[k])
  {
    var f := ForkOf(cache, hashes);
    seq(|hashes|, k requires 0 <= k < |hashes| => if k < f then cache[k].filterHeader else index(hashes[k]))
  }

  /** The cache with k entries from the fork on replaced by those of the chain. */
  function Overwritten(cache: seq<Entry>, index: Index, hashes: seq<Hash>, k: nat): (result: seq<Entry>)
    ensures |result| == |cache|
    ensures forall i :: 0 <= i < |cache| ==>
      result[i] == if ForkOf(cache, hashes) <= i < ForkOf(cache, hashes) + k && i < |hashes|
                   then Entry(hashes[i], index(hashes[i])) else cache[i]
  {
    var f := ForkOf(cache, hashes);
    seq(|cache|, i requires 0 <= i < |cache| =>
      if f <= i < f + k && i < |hashes| then Entry(hashes[i], index(hashes[i])) else cache[i])
  }

  /** The cache after a request beyond its end: trusted entries, then looked-up ones. */
  function Grown(cache: seq<Entry>, index: Index, hashes: seq<Hash>): seq<Entry> {
    cache[..ForkOf(cache, hashes)] + Entries(index, hashes)[ForkOf(cache, hashes)..]
  }

  /** Whether every looked-up header was there. */
  predicate Answered(cache: seq<Entry>, hashes: seq<Hash>, answer: Answer) {
    answer == Complete || (answer.MissingAt? && answer.k >= |hashes| - ForkOf(cache, hashes))
  }

  function ReplyTo(cache: seq<Entry>, index: Index, hashes: seq<Hash>, answer: Answer): Option<seq<Hash>> {
    if Answered(cache, hashes, answer) then Some(Reply(cache, index, hashes)) else None
  }

  /** The cache after a request.  A failed request leaves it as it was unless a header
      went missing while entries were rewritten inside a backing array with `room`. */
  function CacheAfter(cache: seq<Entry>, room: nat, index: Index, hashes: seq<Hash>, answer: Answer): seq<Entry> {
    if |hashes| <= |cache| || answer == LookupError then cache
    else if Answered(cache, hashes, answer) then Grown(cache, index, hashes)
    else if |hashes| <= room then Overwritten(cache, index, hashes, answer.k)
    else cache
  }

  // ---- Why the cache may be trusted ----

  lemma IntervalHash(tree: Tree, tip: Hash, k: nat)
    requires ValidTree(tree) && tip in tree && k < tree[tip].height / INTERVAL
    ensures (k + 1) * INTERVAL <= tree[tip].height
    ensures IntervalHashes(tree, tip)[k] == MainChain(tree, tip)[(k + 1) * INTERVAL]
    ensures IntervalHashes(tree, tip)[k] in tree
  {
    MainChainEntry(tree, tip, (k + 1) * INTERVAL);
  }

  lemma IntervalHeight(tree: Tree, tip: Hash, k: nat)
    requires ValidTree(tree) && tip in tree && k < |IntervalHashes(tree, tip)|
    ensures IntervalHashes(tree, tip)[k] in tree && tree[IntervalHashes(tree, tip)[k]].height == 1000 * (k + 1)
    ensures 1000 * |IntervalHashes(tree, tip)| <= tree[tip].height < 1000 * (|IntervalHashes(tree, tip)| + 1)
  {
    IntervalHash(tree, tip, k);
    MainChainEntry(tree, tip, (k + 1) * INTERVAL);
  }

  /** Two blocks that share an interval ancestor share all lower ones. */
  lemma SharedBelow(tree: Tree, a: Hash, b: Hash, k: nat, i: nat)
    requires ValidTree(tree) && a in tree && b in tree
    requires k < |IntervalHashes(tree, a)| && k < |IntervalHashes(tree, b)| && i <= k
    requires IntervalHashes(tree, a)[k] == IntervalHashes(tree, b)[k]
    ensures IntervalHashes(tree, a)[i] == IntervalHashes(tree, b)[i]
  {
    var h := (k + 1) * INTERVAL;
    IntervalHash(tree, a, k);
    IntervalHash(tree, b, k);
    MainChainPrefix(tree, a, h);
    MainChainPrefix(tree, b, h);
    var shared, at := MainChain(tree, MainChain(tree, a)[h]), (i + 1) * INTERVAL;
    assert at <= h;
    assert shared[at] == MainChain(tree, a)[at] == MainChain(tree, b)[at];
  }

  /** Entries below the fork of a coherent cache are those of the requested chain. */
  lemma TrustedEntry(tree: Tree, index: Index, cache: seq<Entry>, hashes: seq<Hash>, stop: Hash, i: nat)
    requires ValidTree(tree) && stop in tree && Coherent(tree, index, cache) && hashes == IntervalHashes(tree, stop)
    requires i < ForkOf(cache, hashes)
    ensures cache[i] == Entry(hashes[i], index(hashes[i]))
  {
    ListIsCoherent(tree, index, stop);
    NoMix(tree, index, cache, Entries(index, hashes), i, ForkOf(cache, hashes) - 1);
  }

  lemma ListIsCoherent(tree: Tree, index: Index, stop: Hash)
    requires ValidTree(tree) && stop in tree
    ensures Coherent(tree, index, Entries(index, IntervalHashes(tree, stop)))
  {
  }

  /** A coherent cache answers every request like a direct lookup at every interval. */
  lemma ReplyIsDirect(tree: Tree, index: Index, cache: seq<Entry>, stop: Hash)
    requires ValidTree(tree) && stop in tree && Coherent(tree, index, cache)
    ensures Reply(cache, index, IntervalHashes(tree, stop)) == Direct(index, IntervalHashes(tree, stop))
  {
    var hashes := IntervalHashes(tree, stop);
    forall i | 0 <= i < ForkOf(cache, hashes) ensures Reply(cache, index, hashes)[i] == index(hashes[i]) {
      TrustedEntry(tree, index, cache, hashes, stop, i);
    }
  }

  /** Growing a coherent cache makes it the list of the requested block. */
  lemma GrownIsCoherent(tree: Tree, index: Index, cache: seq<Entry>, stop: Hash)
    requires ValidTree(tree) && stop in tree && Coherent(tree, index, cache)
    ensures Grown(cache, index, IntervalHashes(tree, stop)) == Entries(index, IntervalHashes(tree, stop))
    ensures Coherent(tree, index, Grown(cache, index, IntervalHashes(tree, stop)))
  {
    var hashes := IntervalHashes(tree, stop);
    forall i | 0 <= i < ForkOf(cache, hashes) ensures cache[i] == Entry(hashes[i], index(hashes[i])) {
      TrustedEntry(tree, index, cache, hashes, stop, i);
    }
    GrownIsEntries(cache, index, hashes);
  }

  lemma GrownIsEntries(cache: seq<Entry>, index: Index, hashes: seq<Hash>)
    requires forall i :: 0 <= i < ForkOf(cache, hashes) ==> cache[i] == Entry(hashes[i], index(hashes[i]))
    ensures Grown(cache, index, hashes) == Entries(index, hashes)
  {
    assert cache[..ForkOf(cache, hashes)] == Entries(index, hashes)[..ForkOf(cache, hashes)];
  }

  lemma OverwrittenHalfway(tree: Tree, index: Index, cache: seq<Entry>, stop: Hash, k: nat)
    requires ValidTree(tree) && stop in tree && Coherent(tree, index, cache)
    requires 0 < k && |cache| <= |IntervalHashes(tree, stop)|
    requires ForkOf(cache, IntervalHashes(tree, stop)) + k < |cache|
    ensures !Coherent(tree, index, Overwritten(cache, index, IntervalHashes(tree, stop), k))
  {
    var hashes := IntervalHashes(tree, stop);
    var f := ForkOf(cache, hashes);
    var after := Overwritten(cache, index, hashes, k);
    assert cache[f].blockHash != hashes[f] == after[f].blockHash;
    assert cache[f + k] == after[f + k];
    if Coherent(tree, index, after) {
      NoMix(tree, index, cache, after, f, f + k);
    }
  }

  lemma OverwrittenToTheEnd(tree: Tree, index: Index, cache: seq<Entry>, stop: Hash, k: nat)
    requires ValidTree(tree) && stop in tree && Coherent(tree, index, cache)
    requires |cache| <= |IntervalHashes(tree, stop)| && |cache| <= ForkOf(cache, IntervalHashes(tree, stop)) + k
    ensures Coherent(tree, index, Overwritten(cache, index, IntervalHashes(tree, stop), k))
  {
    var hashes := IntervalHashes(tree, stop);
    var f := ForkOf(cache, hashes);
    var after := Overwritten(cache, index, hashes, k);
    forall i | 0 <= i < |cache| ensures after[i] == Entries(index, hashes)[i] {
      if i < f {
        TrustedEntry(tree, index, cache, hashes, stop, i);
      }
    }
    assert after == Entries(index, hashes[..|cache|]);
    PrefixCoherent(tree, index, stop, |cache|);
  }

  /** An in-place rewrite that a missing header cut short mixes two chains exactly when
      it replaced something and left an old entry above. */
  lemma CutShortIff(tree: Tree, index: Index, cache: seq<Entry>, stop: Hash, k: nat)
    requires ValidTree(tree) && stop in tree && Coherent(tree, index, cache)
    requires |cache| <= |IntervalHashes(tree, stop)|
    ensures Coherent(tree, index, Overwritten(cache, index, IntervalHashes(tree, stop), k)) <==>
      k == 0 || |cache| <= ForkOf(cache, IntervalHashes(tree, stop)) + k
  {
    var hashes := IntervalHashes(tree, stop);
    var f := ForkOf(cache, hashes);
    var after := Overwritten(cache, index, hashes, k);
    if k == 0 {
      assert after == cache;
    } else if |cache| <= f + k {
      OverwrittenToTheEnd(tree, index, cache, stop, k);
    } else {
      OverwrittenHalfway(tree, index, cache, stop, k);
    }
  }

  /** A request, answered or not, keeps the cache the list of one block unless it grows
      the cache in place over a fork and a header goes missing strictly between the first
      replaced entry and the last old one. */
  lemma CoherenceKeptIff(tree: Tree, index: Index, cache: seq<Entry>, room: nat, stop: Hash, answer: Answer)
    requires ValidTree(tree) && stop in tree && Coherent(tree, index, cache)
    ensures var hashes := IntervalHashes(tree, stop);
      Coherent(tree, index, CacheAfter(cache, room, index, hashes, answer)) <==>
      !(|cache| < |hashes| <= room && answer.MissingAt? && 0 < answer.k && ForkOf(cache, hashes) + answer.k < |cache|)
  {
    var hashes := IntervalHashes(tree, stop);
    if |hashes| > |cache| && answer != LookupError {
      if Answered(cache, hashes, answer) {
        GrownIsCoherent(tree, index, cache, stop);
      } else if |hashes| <= room {
        CutShortIff(tree, index, cache, stop, answer.k);
      }
    }
  }

  /** Coherent caches that agree at one position agree below it. */
  lemma NoMix(tree: Tree, index: Index, a: seq<Entry>, b: seq<Entry>, i: nat, k: nat)
    requires ValidTree(tree) && Coherent(tree, index, a) && Coherent(tree, index, b)
    requires i <= k < |a| && k < |b| && a[k].blockHash == b[k].blockHash
    ensures a[i] == b[i]
  {
    var t :| t in tree && a == Entries(index, IntervalHashes(tree, t));
    var u :| u in tree && b == Entries(index, IntervalHashes(tree, u));
    var p, q := IntervalHashes(tree, t), IntervalHashes(tree, u);
    assert a[k].blockHash == p[k] && b[k].blockHash == q[k];
    assert p[i] == q[i] by { SharedBelow(tree, t, u, k, i); }
    assert a[i] == Entry(p[i], index(p[i])) && b[i] == Entry(q[i], index(q[i]));
  }

  lemma PrefixCoherent(tree: Tree, index: Index, stop: Hash, n: nat)
    requires ValidTree(tree) && stop in tree && n <= |IntervalHashes(tree, stop)|
    ensures Coherent(tree, index, Entries(index, IntervalHashes(tree, stop)[..n]))
  {
    if n > 0 {
      IntervalHash(tree, stop, n - 1);
      var h := n * INTERVAL;
      var tip := MainChain(tree, stop)[h];
      MainChainEntry(tree, stop, h);
      MainChainPrefix(tree, stop, h);
      assert tree[tip].height / INTERVAL == n;
      assert IntervalHashes(tree, tip) == IntervalHashes(tree, stop)[..n];
    } else {
      assert Entries(index, IntervalHashes(tree, stop)[..n]) == [];
    }
  }

  /** What a mixed cache does: a later request for the old chain matches the old entry
      above and serves the other chain's header below it. */
  lemma MixedCacheMisleads(tree: Tree, index: Index, cache: seq<Entry>, earlier: Hash, stop: Hash, k: nat)
    requires ValidTree(tree) && stop in tree && earlier in tree
    requires cache == Entries(index, IntervalHashes(tree, earlier)) && |cache| <= |IntervalHashes(tree, stop)|
    requires 0 < k && ForkOf(cache, IntervalHashes(tree, stop)) + k < |cache|
    ensures var f := ForkOf(cache, IntervalHashes(tree, stop));
      var mixed := Overwritten(cache, index, IntervalHashes(tree, stop), k);
      && Reply(mixed, index, IntervalHashes(tree, earlier))[f] == index(IntervalHashes(tree, stop)[f])
      && IntervalHashes(tree, stop)[f] != IntervalHashes(tree, earlier)[f]
  {
    var hashes, mine := IntervalHashes(tree, stop), IntervalHashes(tree, earlier);
    var f := ForkOf(cache, hashes);
    var mixed := Overwritten(cache, index, hashes, k);
    assert cache[f].blockHash != hashes[f];
    assert mixed[|cache| - 1].blockHash == mine[|cache| - 1];
    assert ForkOf(mixed, mine) == |cache|;
  }

  // ---- The request handler ----

  /** The cache: a slice over a backing array that may have room to grow in place. */
  class CheckpointCache {
    var data: array<Entry>
    var len: nat

    ghost predicate Valid()
      reads this
    {
      len <= data.Length
    }

    function Contents(): seq<Entry>
      requires Valid()
      reads this, data
    {
      data[..len]
    }

    constructor ()
      ensures Valid() && fresh(data) && Contents() == [] && data.Length == 0
    {
      data, len := new Entry[0], 0;
    }

    /** Serves one request for the filter checkpoints up to block `stop`. */
    method OnGetCFCheckpt(tree: Tree, index: Index, stop: Hash, answer: Answer, spare: nat)
      returns (reply: Option<seq<Hash>>)
      requires ValidTree(tree) && Valid()
      modifies this, data
      ensures Valid() && (data == old(data) || fresh(data))
      ensures data != old(data) ==> stop in tree && data.Length == |IntervalHashes(tree, stop)| + spare
      ensures stop !in tree ==> reply == None && Contents() == old(Contents())
      ensures stop in tree ==>
        var hashes := IntervalHashes(tree, stop);
        && reply == ReplyTo(old(Contents()), index, hashes, answer)
        && Contents() == CacheAfter(old(Contents()), old(data.Length), index, hashes, answer)
    {
      if stop !in tree {
        return None;
      }
      HashesStored(tree, stop);
      reply := Request(index, IntervalHashes(tree, stop), answer, spare);
    }

    /** The request once the interval hashes are known.  `spare` is how much room an
        append leaves when it has to move to a new array. */
    method Request(index: Index, hashes: seq<Hash>, answer: Answer, spare: nat) returns (reply: Option<seq<Hash>>)
      requires Valid() && forall k :: 0 <= k < |hashes| ==> hashes[k] != ZERO_HASH
      modifies this, data
      ensures Valid() && (data == old(data) || fresh(data)) && (data != old(data) ==> data.Length == |hashes| + spare)
      ensures reply == ReplyTo(old(Contents()), index, hashes, answer)
      ensures Contents() == CacheAfter(old(Contents()), old(data.Length), index, hashes, answer)
    {
      if |hashes| > len {
        reply := RequestBeyond(index, hashes, answer, spare);
      } else {
        reply := RequestWithin(index, hashes, answer);
      }
    }

    /** A request the cache is long enough for; the cache is only read. */
    method RequestWithin(index: Index, hashes: seq<Hash>, answer: Answer) returns (reply: Option<seq<Hash>>)
      requires Valid() && |hashes| <= len
      ensures reply == ReplyTo(Contents(), index, hashes, answer)
    {
      var forkIdx := FindFork(data, hashes);
      ForkUnique(Contents(), hashes, forkIdx);
      var trusted := Trusted(data, forkIdx);
      if answer == LookupError {
        return None;
      }
      var looked, ok := LookUp(index, hashes, forkIdx, answer);
      if !ok {
        return None;
      }
      ReplyPieces(Contents(), index, hashes, trusted, looked);
      reply := Some(trusted + looked);
    }

    /** A request beyond the end of the cache, which grows and is rewritten from the fork
        on. */
    method RequestBeyond(index: Index, hashes: seq<Hash>, answer: Answer, spare: nat)
      returns (reply: Option<seq<Hash>>)
      requires Valid() && |hashes| > len && forall k :: 0 <= k < |hashes| ==> hashes[k] != ZERO_HASH
      modifies this, data
      ensures Valid() && (data == old(data) || fresh(data)) && (data != old(data) ==> data.Length == |hashes| + spare)
      ensures reply == ReplyTo(old(Contents()), index, hashes, answer)
      ensures Contents() == CacheAfter(old(Contents()), old(data.Length), index, hashes, answer)
    {
      ghost var cache0 := Contents();
      var cache, forkIdx := GrowToFork(hashes, spare);
      var trusted := Trusted(cache, forkIdx);
      if answer == LookupError {
        return None;
      }
      var looked, ok := LookUp(index, hashes, forkIdx, answer);
      ReplyPieces(cache0, index, hashes, trusted, looked);
      Store(cache, index, hashes, forkIdx, |looked|, answer);
      reply := if ok then Some(trusted + looked) else None;
    }

    /** Writes what was looked up into the grown array, which becomes the cache unless a header
        was missing. */
    method Store(cache: array<Entry>, index: Index, hashes: seq<Hash>, forkIdx: nat, n: nat, ghost answer: Answer)
      requires Valid() && |hashes| > len && cache.Length >= |hashes|
      requires if |hashes| <= data.Length then cache == data else cache != data
      requires forkIdx == ForkOf(Contents(), hashes) && forkIdx + n <= |hashes| && answer != LookupError
      requires n == if Answered(Contents(), hashes, answer) then |hashes| - forkIdx else answer.k
      requires n == |hashes| - forkIdx <==> Answered(Contents(), hashes, answer)
      requires forall k :: 0 <= k < len ==> cache[k] == Contents()[k]
      modifies this, data, cache
      ensures Valid() && (data == old(data) || data == cache)
      ensures Contents() == CacheAfter(old(Contents()), old(data.Length), index, hashes, answer)
    {
      ghost var cache0 := Contents();
      Write(cache, index, hashes, forkIdx, n);
      if n < |hashes| - forkIdx {
        OverwrittenPieces(cache0, index, hashes, n, data[..], cache == data);
        return;
      }
      GrownPieces(cache0, index, hashes, cache[..]);
      data, len := cache, |hashes|;
    }

    method GrowToFork(hashes: seq<Hash>, spare: nat) returns (cache: array<Entry>, forkIdx: nat)
      requires Valid() && |hashes| > len && forall k :: 0 <= k < |hashes| ==> hashes[k] != ZERO_HASH
      modifies data
      ensures cache.Length >= |hashes| && (cache != data ==> cache.Length == |hashes| + spare)
      ensures if |hashes| <= data.Length then cache == data else fresh(cache)
      ensures forkIdx == ForkOf(old(Contents()), hashes)
      ensures forall k :: 0 <= k < len ==> cache[k] == old(Contents())[k]
      ensures Contents() == old(Contents())
    {
      cache := Grow(|hashes|, spare);
      forkIdx := FindFork(cache, hashes);
      ForkUnique(Contents(), hashes, forkIdx);
    }

    /** Walks back to the last position at which cache and chain hold the same block. */
    static method FindFork(cache: array<Entry>, hashes: seq<Hash>) returns (forkIdx: nat)
      requires |hashes| <= cache.Length
      ensures forkIdx <= |hashes|
      ensures forkIdx > 0 ==> cache[forkIdx - 1].blockHash == hashes[forkIdx - 1]
      ensures forall k :: forkIdx <= k < |hashes| ==> cache[k].blockHash != hashes[k]
    {
      forkIdx := |hashes|;
      while forkIdx > 0
        invariant forkIdx <= |hashes|
        invariant forall k :: forkIdx <= k < |hashes| ==> cache[k].blockHash != hashes[k]
      {
        if cache[forkIdx - 1].blockHash == hashes[forkIdx - 1] {
          break;
        }
        forkIdx := forkIdx - 1;
      }
    }

    /** The cached headers below the fork. */
    static method Trusted(cache: array<Entry>, forkIdx: nat) returns (headers: seq<Hash>)
      requires forkIdx <= cache.Length
      ensures |headers| == forkIdx && forall k :: 0 <= k < forkIdx ==> headers[k] == cache[k].filterHeader
    {
      headers := [];
      for i := 0 to forkIdx
        invariant |headers| == i && forall k :: 0 <= k < i ==> headers[k] == cache[k].filterHeader
      {
        headers := headers + [cache[i].filterHeader];
      }
    }

    /** Collects the looked-up headers from the fork on; stops at a missing one. */
    static method LookUp(index: Index, hashes: seq<Hash>, forkIdx: nat, answer: Answer)
      returns (looked: seq<Hash>, ok: bool)
      requires forkIdx <= |hashes|
      ensures ok <==> !(answer.MissingAt? && answer.k < |hashes| - forkIdx)
      ensures |looked| == if ok then |hashes| - forkIdx else answer.k
      ensures forall i :: 0 <= i < |looked| ==> looked[i] == index(hashes[forkIdx + i])
    {
      looked, ok := [], true;
      for i := 0 to |hashes| - forkIdx
        invariant |looked| == i
        invariant answer.MissingAt? ==> i <= answer.k
        invariant forall j :: 0 <= j < i ==> looked[j] == index(hashes[forkIdx + j])
      {
        if answer == MissingAt(i) {
          ok := false;
          return;
        }
        looked := looked + [index(hashes[forkIdx + i])];
      }
    }

    /** Writes the n looked-up entries from the fork on into the grown cache. */
    static method Write(cache: array<Entry>, index: Index, hashes: seq<Hash>, forkIdx: nat, n: nat)
      requires forkIdx + n <= |hashes| <= cache.Length
      modifies cache
      ensures forall k :: 0 <= k < cache.Length ==>
        cache[k] == if forkIdx <= k < forkIdx + n then Entry(hashes[k], index(hashes[k])) else old(cache[k])
    {
      for i := 0 to n
        invariant forall k :: 0 <= k < cache.Length ==>
          cache[k] == if forkIdx <= k < forkIdx + i then Entry(hashes[k], index(hashes[k])) else old(cache[k])
      {
        cache[forkIdx + i] := Entry(hashes[forkIdx + i], index(hashes[forkIdx + i]));
      }
    }

    /** Appends zero entries up to length n: in place when there is room, otherwise in a
        new array. */
    method Grow(n: nat, spare: nat) returns (cache: array<Entry>)
      requires Valid() && n > len
      modifies data
      ensures cache.Length >= n && (cache != data ==> cache.Length == n + spare)
      ensures if n <= data.Length then cache == data else fresh(cache)
      ensures forall k :: 0 <= k < len ==> cache[k] == old(data[k])
      ensures forall k :: len <= k < n ==> cache[k] == Entry(ZERO_HASH, ZERO_HASH)
      ensures data[..len] == old(data[..len])
      ensures cache != data ==> data[..] == old(data[..])
    {
      if n <= data.Length {
        cache := data;
        forall k | len <= k < n {
          cache[k] := Entry(ZERO_HASH, ZERO_HASH);
        }
      } else {
        var from, m := data, len;
        cache := new Entry[n + spare](k requires 0 <= k < n + spare && m <= from.Length reads this, from =>
          if k < m then from[k] else Entry(ZERO_HASH, ZERO_HASH));
      }
    }
  }

  lemma ReplyPieces(cache: seq<Entry>, index: Index, hashes: seq<Hash>, trusted: seq<Hash>, looked: seq<Hash>)
    requires |trusted| == ForkOf(cache, hashes) && |trusted| + |looked| <= |hashes|
    requires forall k :: 0 <= k < |trusted| ==> trusted[k] == cache[k].filterHeader
    requires forall k :: 0 <= k < |looked| ==> looked[k] == index(hashes[|trusted| + k])
    ensures |trusted| + |looked| == |hashes| ==> trusted + looked == Reply(cache, index, hashes)
  {
  }

  lemma GrownPieces(cache: seq<Entry>, index: Index, hashes: seq<Hash>, data: seq<Entry>)
    requires |cache| <= |hashes| <= |data|
    requires forall k :: 0 <= k < |hashes| ==>
      data[k] == if k < ForkOf(cache, hashes) then cache[k] else Entry(hashes[k], index(hashes[k]))
    ensures data[..|hashes|] == Grown(cache, index, hashes)
  {
  }

  lemma OverwrittenPieces(
    cache: seq<Entry>, index: Index, hashes: seq<Hash>, n: nat, data: seq<Entry>, inPlace: bool)
    requires |cache| <= |data| && (inPlace ==> |cache| <= |hashes|)
    requires forall k :: 0 <= k < |cache| ==>
      data[k] == if inPlace && ForkOf(cache, hashes) <= k < ForkOf(cache, hashes) + n
                 then Entry(hashes[k], index(hashes[k])) else cache[k]
    ensures data[..|cache|] == if inPlace then Overwritten(cache, index, hashes, n) else cache
  {
  }

  lemma HashesStored(tree: Tree, stop: Hash)
    requires ValidTree(tree) && stop in tree
    ensures forall k :: 0 <= k < |IntervalHashes(tree, stop)| ==> IntervalHashes(tree, stop)[k] in tree
  {
    forall k | 0 <= k < |IntervalHashes(tree, stop)| ensures IntervalHashes(tree, stop)[k] in tree {
      IntervalHash(tree, stop, k);
    }
  }

  lemma ForkUnique(cache: seq<Entry>, hashes: seq<Hash>, f: nat)
    requires f <= |hashes| && f <= |cache|
    requires f > 0 ==> cache[f - 1].blockHash == hashes[f - 1]
    requires forall k :: f <= k < |hashes| && k < |cache| ==> cache[k].blockHash != hashes[k]
    ensures ForkOf(cache, hashes) == f
  {
  }

  // ---- Runs ----

  /** Any run of answered requests, on whatever chains they lie: every reply is the
      direct lookup at every interval, and the cache stays the list of one block. */
  method Serve(tree: Tree, index: Index, stops: seq<Hash>, spares: seq<nat>)
    returns (replies: seq<seq<Hash>>, cache: CheckpointCache)
    requires ValidTree(tree) && |spares| == |stops|
    requires forall k :: 0 <= k < |stops| ==> stops[k] in tree
    ensures |replies| == |stops|
    ensures forall k :: 0 <= k < |stops| ==> replies[k] == Direct(index, IntervalHashes(tree, stops[k]))
    ensures cache.Valid() && Coherent(tree, index, cache.Contents())
  {
    cache := new CheckpointCache();
    replies := [];
    for n := 0 to |stops|
      invariant fresh(cache) && fresh(cache.data) && cache.Valid() && Coherent(tree, index, cache.Contents())
      invariant |replies| == n
      invariant forall k :: 0 <= k < n ==> replies[k] == Direct(index, IntervalHashes(tree, stops[k]))
    {
      var reply := ServeOne(tree, index, cache, stops[n], spares[n]);
      replies := replies + [reply];
    }
  }

  method ServeOne(tree: Tree, index: Index, cache: CheckpointCache, stop: Hash, spare: nat) returns (reply: seq<Hash>)
    requires ValidTree(tree) && stop in tree && cache.Valid() && Coherent(tree, index, cache.Contents())
    modifies cache, cache.data
    ensures cache.Valid() && Coherent(tree, index, cache.Contents())
    ensures cache.data == old(cache.data) || fresh(cache.data)
    ensures reply == Direct(index, IntervalHashes(tree, stop))
  {
    ReplyIsDirect(tree, index, cache.Contents(), stop);
    GrownIsCoherent(tree, index, cache.Contents(), stop);
    var answer := cache.OnGetCFCheckpt(tree, index, stop, Complete, spare);
    reply := answer.value;
  }

  // ---- A cache that misleads ----

  /** Two chains on one genesis block: block n is at height n / 2, on the chain of the blocks
      with the same parity. */
  function ForkedBlock(n: nat): Block
    requires 0 < n
  {
    Block(Hash(n), if n == 1 then ZERO_HASH else if n <= 3 then Hash(1) else Hash(n - 2), n / 2, [])
  }

  /** All of these blocks up to a number. */
  ghost predicate IsForked(tree: Tree, last: nat) {
    forall h {:trigger h in tree} :: (h in tree <==> 1 <= h.id <= last) && (h in tree ==> tree[h] == ForkedBlock(h.id))
  }

  lemma ForkedIsValid(tree: Tree, last: nat)
    requires IsForked(tree, last)
    ensures ValidTree(tree)
  {
  }

  lemma {:induction false} ForkedChain(tree: Tree, last: nat, n: nat, k: nat)
    requires IsForked(tree, last) && ValidTree(tree) && 1 <= n <= last && k <= n / 2
    ensures Hash(n) in tree && k < |MainChain(tree, Hash(n))|
    ensures MainChain(tree, Hash(n))[k] == Hash(if k == 0 then 1 else 2 * k + n % 2)
    decreases n
  {
    assert Hash(n) in tree;
    if k < n / 2 {
      ForkedChain(tree, last, if n <= 3 then 1 else n - 2, k);
    }
  }

  /** The interval ancestors of a block on one of the two chains. */
  lemma ForkedInterval(tree: Tree, last: nat, n: nat, i: nat)
    requires IsForked(tree, last) && ValidTree(tree) && 1 <= n <= last && (i + 1) * INTERVAL <= n / 2
    ensures Hash(n) in tree && tree[Hash(n)].height == n / 2 && i < |IntervalHashes(tree, Hash(n))|
    ensures IntervalHashes(tree, Hash(n))[i] == Hash(2 * ((i + 1) * INTERVAL) + n % 2)
  {
    var tip, h := Hash(n), (i + 1) * INTERVAL;
    assert tip in tree && tree[tip].height == n / 2;
    assert i < tree[tip].height / INTERVAL;
    ForkedChain(tree, last, n, h);
    IntervalHash(tree, tip, i);
  }

  /** What two and three interval hashes without a common entry do to a cache. */
  lemma MixedPieces(index: Index, p: seq<Hash>, q: seq<Hash>)
    requires |p| == 2 && |q| == 3 && p[0] != q[0] && p[1] != q[1]
    ensures
      var full, mixed := Entries(index, p), Overwritten(Entries(index, p), index, q, 1);
      && ForkOf(full, q) == 0 && Grown([], index, p) == full
      && CacheAfter(full, 3, index, q, MissingAt(1)) == mixed
      && ReplyTo(mixed, index, p, Complete) == Some([index(q[0]), index(p[1])])
  {
    var full, mixed := Entries(index, p), Overwritten(Entries(index, p), index, q, 1);
    assert ForkOf(full, q) == 0;
    assert mixed[1].blockHash == p[1];
    assert ForkOf(mixed, p) == 2;
    assert Reply(mixed, index, p) == [index(q[0]), index(p[1])];
    assert ForkOf([], p) == 0;
  }

  /** One request, in terms of the interval hashes. */
  method Ask(tree: Tree, index: Index, cache: CheckpointCache, stop: Hash, answer: Answer, spare: nat,
             ghost hashes: seq<Hash>, ghost before: seq<Entry>)
    returns (reply: Option<seq<Hash>>)
    requires ValidTree(tree) && stop in tree && hashes == IntervalHashes(tree, stop)
    requires cache.Valid() && before == cache.Contents()
    modifies cache, cache.data
    ensures cache.Valid() && (cache.data == old(cache.data) || fresh(cache.data))
    ensures cache.data != old(cache.data) ==> cache.data.Length == |hashes| + spare
    ensures reply == ReplyTo(before, index, hashes, answer)
    ensures cache.Contents() == CacheAfter(before, old(cache.data.Length), index, hashes, answer)
  {
    reply := cache.OnGetCFCheckpt(tree, index, stop, answer, spare);
  }

  /** One chain fills the cache, with room for one more entry. */
  method FillCache(tree: Tree, index: Index, mine: Hash, ghost p: seq<Hash>) returns (cache: CheckpointCache)
    requires ValidTree(tree) && mine in tree && p == IntervalHashes(tree, mine) && |p| == 2
    ensures cache.Valid() && fresh(cache) && fresh(cache.data)
    ensures cache.Contents() == Entries(index, p) && cache.data.Length == 3
  {
    cache := new CheckpointCache();
    var _ := Ask(tree, index, cache, mine, Complete, 1, p, []);
    assert Grown([], index, p) == Entries(index, p);
    assert cache.len == 2;
  }

  /** The other chain grows it in place until its second header is missing. */
  method MixCache(tree: Tree, index: Index, cache: CheckpointCache, other: Hash, ghost p: seq<Hash>, ghost q: seq<Hash>)
    requires ValidTree(tree) && other in tree && q == IntervalHashes(tree, other)
    requires |p| == 2 && |q| == 3 && p[0] != q[0] && p[1] != q[1]
    requires cache.Valid() && cache.Contents() == Entries(index, p) && cache.data.Length == 3
    modifies cache, cache.data
    ensures cache.Valid() && (cache.data == old(cache.data) || fresh(cache.data))
    ensures cache.Contents() == Overwritten(Entries(index, p), index, q, 1)
  {
    MixedPieces(index, p, q);
    var _ := Ask(tree, index, cache, other, MissingAt(1), 0, q, Entries(index, p));
  }

  /** The first chain is then served a header of the second. */
  method MixedReply(tree: Tree, index: Index, mine: Hash, other: Hash, ghost p: seq<Hash>, ghost q: seq<Hash>)
    returns (cache: CheckpointCache, reply: Option<seq<Hash>>)
    requires ValidTree(tree) && mine in tree && other in tree
    requires p == IntervalHashes(tree, mine) && q == IntervalHashes(tree, other)
    requires |p| == 2 && |q| == 3 && p[0] != q[0] && p[1] != q[1]
    ensures cache.Valid() && cache.Contents() == Overwritten(Entries(index, p), index, q, 1)
    ensures reply == Some([index(q[0]), index(p[1])])
  {
    MixedPieces(index, p, q);
    cache := FillCache(tree, index, mine, p);
    MixCache(tree, index, cache, other, p, q);
    reply := Ask(tree, index, cache, mine, Complete, 0, p, Overwritten(Entries(index, p), index, q, 1));
  }

  method ForkedTree(last: nat) returns (tree: Tree)
    ensures IsForked(tree, last)
  {
    tree := map[];
    for n := 1 to last + 1
      invariant IsForked(tree, n - 1)
    {
      OneMoreBlock(tree, n);
      tree := tree[Hash(n) := ForkedBlock(n)];
    }
  }

  lemma OneMoreBlock(tree: Tree, n: nat)
    requires 0 < n && IsForked(tree, n - 1)
    ensures IsForked(tree[Hash(n) := ForkedBlock(n)], n)
  {
    forall h
      ensures h in tree[Hash(n) := ForkedBlock(n)] <==> 1 <= h.id <= n
      ensures h in tree[Hash(n) := ForkedBlock(n)] ==> tree[Hash(n) := ForkedBlock(n)][h] == ForkedBlock(h.id)
    {
      assert h in tree || 1 > h.id || h.id > n - 1;
      assert h.id == n ==> h == Hash(n);
    }
  }

  /** The interval ancestors of block n. */
  function Ancestors(n: nat): (hashes: seq<Hash>)
    ensures |hashes| == n / 2 / INTERVAL
    ensures forall i :: 0 <= i < |hashes| ==> hashes[i] == Hash(2 * ((i + 1) * INTERVAL) + n % 2)
  {
    seq(n / 2 / INTERVAL, i requires 0 <= i < n / 2 / INTERVAL => Hash(2 * ((i + 1) * INTERVAL) + n % 2))
  }

  lemma ForkedAncestors(tree: Tree, last: nat, n: nat)
    requires IsForked(tree, last) && ValidTree(tree) && 1 <= n <= last
    ensures Hash(n) in tree && IntervalHashes(tree, Hash(n)) == Ancestors(n)
  {
    assert Hash(n) in tree;
    forall i | 0 <= i < n / 2 / INTERVAL
      ensures IntervalHashes(tree, Hash(n))[i] == Ancestors(n)[i]
    {
      ForkedInterval(tree, last, n, i);
    }
  }

  lemma TwoAncestors(a: nat, b: nat)
    requires a == 4000 && b == 6001
    ensures Ancestors(a) == [Hash(2000), Hash(4000)] && Ancestors(b) == [Hash(2001), Hash(4001), Hash(6001)]
  {
  }

  /** Three requests on two chains of 2000 and 3000 blocks, with filter headers that equal the
      hashes: the third reply is not the direct lookup. */
  method MixedCacheRun(a: nat, b: nat) returns (tree: Tree, cache: CheckpointCache, reply: Option<seq<Hash>>)
    requires a == 4000 && b == 6001
    ensures ValidTree(tree) && Hash(a) in tree && cache.Valid() && !Coherent(tree, h => h, cache.Contents())
    ensures reply == Some([Hash(2001), Hash(4000)])
    ensures IntervalHashes(tree, Hash(a)) == [Hash(2000), Hash(4000)]
  {
    tree := ForkedTree(b);
    ForkedIsValid(tree, b);
    ForkedAncestors(tree, b, a);
    ForkedAncestors(tree, b, b);
    TwoAncestors(a, b);
    var index: Index := h => h;
    ghost var p, q := [Hash(2000), Hash(4000)], [Hash(2001), Hash(4001), Hash(6001)];
    MixedPieces(index, p, q);
    assert Coherent(tree, index, Entries(index, p));
    OverwrittenHalfway(tree, index, Entries(index, p), Hash(b), 1);
    cache, reply := MixedReply(tree, index, Hash(a), Hash(b), p, q);
  }
}
