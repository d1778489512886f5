/** Skip/count paging of the transactions of an address, stitched from the memory pool and the
    address index.  Counts are 32-bit and wrap around. */
module Paging {
  import opened Wire
  import opened Lists

  const U32: int := 0x1_0000_0000

  /** The conversion to 32 bits. */
  function Wrap(n: int): (r: nat)
    ensures r == n % U32
  {
    if 0 <= n < U32 then n else n % U32
  }

  function Min(a: int, b: int): int {
    if a < b then a else b
  }

  // ----- windows -----

  /** The entries at positions skip up to skip + count. */
  function Window(s: seq<Hash>, skip: nat, count: nat): seq<Hash> {
    s[Min(skip, |s|)..Min(skip + count, |s|)]
  }

  lemma SliceConcat(a: seq<Hash>, b: seq<Hash>, i: nat, j: nat)
    requires i <= j <= |a| + |b|
    ensures (a + b)[i..j] ==
      if j <= |a| then a[i..j] else if i <= |a| then a[i..] + b[..j - |a|] else b[i - |a|..j - |a|]
  {
    var whole := (a + b)[i..j];
    forall k | 0 <= k < j - i
      ensures whole[k] == if i + k < |a| then a[i + k] else b[i + k - |a|]
    {
    }
  }

  /** A window over two lists is a window over the first, then one over the second with what is
      left to skip and to count. */
  lemma WindowConcat(a: seq<Hash>, b: seq<Hash>, skip: nat, count: nat)
    ensures
      var first := Window(a, skip, count);
      Window(a + b, skip, count) == first + Window(b, skip - Min(skip, |a|), count - |first|)
  {
    if skip + count <= |a| {
      WithinFirst(a, b, skip, count);
    } else if skip <= |a| {
      AcrossBoth(a, b, skip, count);
    } else {
      WithinSecond(a, b, skip, count);
    }
  }

  lemma WithinFirst(a: seq<Hash>, b: seq<Hash>, skip: nat, count: nat)
    requires skip + count <= |a|
    ensures Window(a + b, skip, count) == Window(a, skip, count) && |Window(a, skip, count)| == count
    ensures Window(b, 0, 0) == []
  {
    SliceConcat(a, b, skip, skip + count);
  }

  lemma AcrossBoth(a: seq<Hash>, b: seq<Hash>, skip: nat, count: nat)
    requires skip <= |a| < skip + count
    ensures Window(a, skip, count) == a[skip..]
    ensures Window(a + b, skip, count) == a[skip..] + Window(b, 0, count - (|a| - skip))
  {
    SliceConcat(a, b, skip, Min(skip + count, |a| + |b|));
    assert b[..0] == [];
  }

  lemma WithinSecond(a: seq<Hash>, b: seq<Hash>, skip: nat, count: nat)
    requires |a| < skip
    ensures Window(a, skip, count) == [] && Window(a + b, skip, count) == Window(b, skip - |a|, count)
  {
    SliceConcat(a, b, Min(skip, |a| + |b|), Min(skip + count, |a| + |b|));
  }

  lemma ShortWindow(s: seq<Hash>, skip: nat, count: nat)
    ensures |Window(s, skip, count)| == if skip >= |s| then 0 else Min(count, |s| - skip)
  {
  }

  lemma WindowAt(s: seq<Hash>, skip: nat, count: nat, i: nat)
    requires i < count && skip + i < |s|
    ensures i < |Window(s, skip, count)| && Window(s, skip, count)[i] == s[skip + i]
  {
    ShortWindow(s, skip, count);
  }

  lemma WindowIsSlice(s: seq<Hash>, skip: nat, count: nat)
    ensures Window(s, skip, count) == if skip >= |s| then [] else s[skip..skip + Min(count, |s| - skip)]
  {
  }

  // ----- the address index -----

  /** The index keeps an address's entries in levels, the newest in level 0; each level is in
      block order.  All of them, oldest first: */
  function Entries(levels: seq<seq<Hash>>, n: nat): seq<Hash>
    requires n <= |levels|
  {
    if n == 0 then [] else levels[n - 1] + Entries(levels, n - 1)
  }

  function AllEntries(levels: seq<seq<Hash>>): seq<Hash> {
    Entries(levels, |levels|)
  }

  /** How many levels a reversed lookup reads before it has the given number of entries. */
  function LevelsRead(levels: seq<seq<Hash>>, enough: nat, n: nat): (r: nat)
    requires n <= |levels|
    ensures n <= r <= |levels|
    ensures r == |levels| || |Entries(levels, r)| >= enough
    decreases |levels| - n
  {
    if n == |levels| || |Entries(levels, n)| >= enough then n else LevelsRead(levels, enough, n + 1)
  }

  /** What a lookup has read, oldest first. */
  function Loaded(levels: seq<seq<Hash>>, skip: nat, count: nat, reverse: bool): seq<Hash> {
    if reverse then Entries(levels, LevelsRead(levels, Wrap(skip + count), 0)) else AllEntries(levels)
  }

  function Ordered(s: seq<Hash>, reverse: bool): seq<Hash> {
    if reverse then Reversed(s) else s
  }

  lemma {:induction false} EntriesSuffix(levels: seq<seq<Hash>>, n: nat, m: nat)
    requires n <= m <= |levels|
    ensures |Entries(levels, n)| <= |Entries(levels, m)|
    ensures Entries(levels, m) == Entries(levels, m)[..|Entries(levels, m)| - |Entries(levels, n)|] + Entries(levels, n)
    decreases m - n
  {
    if n < m {
      EntriesSuffix(levels, n, m - 1);
    }
  }

  /** Without overflow, what a reversed lookup leaves unread does not matter. */
  lemma LoadedSuffices(levels: seq<seq<Hash>>, skip: nat, count: nat, reverse: bool)
    requires reverse ==> skip + count < U32
    ensures
      var got, all := Ordered(Loaded(levels, skip, count, reverse), reverse), Ordered(AllEntries(levels), reverse);
      Window(got, skip, count) == Window(all, skip, count)
      && (count > 0 ==> Min(skip, |got|) == Min(skip, |all|))
  {
    if reverse {
      var r := LevelsRead(levels, skip + count, 0);
      var got, all := Entries(levels, r), AllEntries(levels);
      EntriesSuffix(levels, r, |levels|);
      if r != |levels| {
        ReversedConcat(all[..|all| - |got|], got);
        WindowConcat(Reversed(got), Reversed(all[..|all| - |got|]), skip, count);
        ShortWindow(Reversed(got), skip, count);
      }
    }
  }

  /** Reads levels, prepending the older ones, until enough are there. */
  method ReadLevels(levels: seq<seq<Hash>>, skip: nat, count: nat, reverse: bool) returns (serialized: seq<Hash>)
    ensures serialized == Loaded(levels, skip, count, reverse)
  {
    var level, enough := 0, Wrap(skip + count);
    serialized := [];
    while level < |levels| && (!reverse || |serialized| < enough)
      invariant 0 <= level <= |levels| && serialized == Entries(levels, level)
      invariant reverse ==> LevelsRead(levels, enough, 0) == LevelsRead(levels, enough, level)
    {
      LevelsReadStep(levels, enough, level);
      serialized := levels[level] + serialized;
      level := level + 1;
    }
    LevelsReadStep(levels, enough, level);
  }

  lemma LevelsReadStep(levels: seq<seq<Hash>>, enough: nat, n: nat)
    requires n <= |levels|
    ensures LevelsRead(levels, enough, n)
         == if n == |levels| || |Entries(levels, n)| >= enough then n else LevelsRead(levels, enough, n + 1)
  {
  }

  // ----- reading entries by their byte offset -----

  const ENTRY_SIZE: nat := 12

  /** What is found at a place in the index: a transaction, or twelve bytes of two neighbouring
      entries, whatever they decode to. */
  datatype Found = Listed(hash: Hash) | Torn

  function Whole(s: seq<Hash>): (r: seq<Found>)
    ensures |r| == |s| && forall i :: 0 <= i < |s| ==> r[i] == Listed(s[i])
  {
    if s == [] then [] else [Listed(s[0])] + Whole(s[1..])
  }

  lemma WholeConcat(a: seq<Hash>, b: seq<Hash>)
    ensures Whole(a + b) == Whole(a) + Whole(b)
  {
  }

  /** Reads the entry at a position.  Its byte offset is computed in 32 bits. */
  function ReadAt(s: seq<Hash>, position: nat): Found
    requires position < |s|
  {
    var offset := Wrap(ENTRY_SIZE * position);
    if offset % ENTRY_SIZE == 0 then Listed(s[offset / ENTRY_SIZE]) else Torn
  }

  predicate Distinct(s: seq<Hash>) {
    forall i, j :: 0 <= i < j < |s| ==> s[i] != s[j]
  }

  /** A read is right exactly when the offset does not wrap; the first position at which it
      does is 357913942. */
  lemma ReadAtIff(s: seq<Hash>, position: nat)
    requires position < |s|
    ensures ENTRY_SIZE * position < U32 ==> ReadAt(s, position) == Listed(s[position])
    ensures ENTRY_SIZE * position >= U32 && Distinct(s) ==> ReadAt(s, position) != Listed(s[position])
  {
    var offset := Wrap(ENTRY_SIZE * position);
    if ENTRY_SIZE * position >= U32 && Distinct(s) && offset % ENTRY_SIZE == 0 {
      assert offset / ENTRY_SIZE < position;
    }
  }

  function Position(length: nat, skip: nat, i: nat, reverse: bool): nat
    requires skip + i < length
  {
    if reverse then length - skip - i - 1 else skip + i
  }

  function ReadRun(s: seq<Hash>, skip: nat, n: nat, reverse: bool): (r: seq<Found>)
    requires skip + n <= |s|
    ensures |r| == n && forall i :: 0 <= i < n ==> r[i] == ReadAt(s, Position(|s|, skip, i, reverse))
  {
    if n == 0 then []
    else ReadRun(s, skip, n - 1, reverse) + [ReadAt(s, Position(|s|, skip, n - 1, reverse))]
  }

  /** The highest of n positions has an offset that fits 32 bits. */
  predicate OffsetsFit(length: nat, skip: nat, n: nat, reverse: bool)
    requires skip + n <= length
  {
    n == 0 || ENTRY_SIZE * Position(length, skip, Highest(n, reverse), reverse) < U32
  }

  lemma OrderedAt(s: seq<Hash>, skip: nat, i: nat, reverse: bool)
    requires skip + i < |s|
    ensures |Ordered(s, reverse)| == |s| && Ordered(s, reverse)[skip + i] == s[Position(|s|, skip, i, reverse)]
  {
    ReversedAt(s, skip + i);
  }

  /** Each entry of a run is read right when its offset fits, and wrong otherwise. */
  lemma ReadRunAt(s: seq<Hash>, skip: nat, n: nat, i: nat, reverse: bool)
    requires i < n && skip + n <= |s| == |Ordered(s, reverse)|
    ensures
      var read, wanted := ReadRun(s, skip, n, reverse)[i], Listed(Ordered(s, reverse)[skip..skip + n][i]);
      var offset := ENTRY_SIZE * Position(|s|, skip, i, reverse);
      (offset < U32 ==> read == wanted) && (offset >= U32 && Distinct(s) ==> read != wanted)
  {
    OrderedAt(s, skip, i, reverse);
    ReadAtIff(s, Position(|s|, skip, i, reverse));
  }

  /** The position with the highest offset. */
  function Highest(n: nat, reverse: bool): nat
    requires n > 0
  {
    if reverse then 0 else n - 1
  }

  lemma HighestIsHighest(length: nat, skip: nat, n: nat, i: nat, reverse: bool)
    requires i < n && skip + n <= length
    ensures Position(length, skip, i, reverse) <= Position(length, skip, Highest(n, reverse), reverse)
  {
  }

  lemma ReadRunIff(s: seq<Hash>, skip: nat, n: nat, reverse: bool)
    requires skip + n <= |s| == |Ordered(s, reverse)|
    ensures
      var read, wanted := ReadRun(s, skip, n, reverse), Whole(Ordered(s, reverse)[skip..skip + n]);
      && (OffsetsFit(|s|, skip, n, reverse) ==> read == wanted)
      && (Distinct(s) && read == wanted ==> OffsetsFit(|s|, skip, n, reverse))
  {
    var read, wanted := ReadRun(s, skip, n, reverse), Whole(Ordered(s, reverse)[skip..skip + n]);
    if OffsetsFit(|s|, skip, n, reverse) {
      forall i | 0 <= i < n
        ensures read[i] == wanted[i]
      {
        HighestIsHighest(|s|, skip, n, i, reverse);
        ReadRunAt(s, skip, n, i, reverse);
      }
    } else {
      ReadRunAt(s, skip, n, Highest(n, reverse), reverse);
    }
  }

  /** What the index lookup returns from the entries it has read. */
  function ReadWindow(s: seq<Hash>, skip: nat, count: nat, reverse: bool): seq<Found> {
    if skip >= |s| then [] else ReadRun(s, skip, Min(count, |s| - skip), reverse)
  }

  predicate WindowFits(length: nat, skip: nat, count: nat, reverse: bool) {
    skip >= length || OffsetsFit(length, skip, Min(count, length - skip), reverse)
  }

  /** The lookup returns the window exactly when its offsets fit. */
  lemma ReadWindowIff(s: seq<Hash>, skip: nat, count: nat, reverse: bool)
    ensures |ReadWindow(s, skip, count, reverse)| == |Window(Ordered(s, reverse), skip, count)|
    ensures WindowFits(|s|, skip, count, reverse) ==>
      ReadWindow(s, skip, count, reverse) == Whole(Window(Ordered(s, reverse), skip, count))
    ensures Distinct(s) && ReadWindow(s, skip, count, reverse) == Whole(Window(Ordered(s, reverse), skip, count)) ==>
      WindowFits(|s|, skip, count, reverse)
  {
    var ordered := Ordered(s, reverse);
    assert |ordered| == |s|;
    WindowIsSlice(ordered, skip, count);
    if skip < |s| {
      var n := Min(count, |s| - skip);
      assert Window(ordered, skip, count) == ordered[skip..skip + n];
      assert ReadWindow(s, skip, count, reverse) == ReadRun(s, skip, n, reverse);
      ReadRunIff(s, skip, n, reverse);
    }
  }

  /** The index lookup: the window over the entries that were read, each read at its offset, and
      how many of them were skipped. */
  method FetchIndexEntries(levels: seq<seq<Hash>>, skip: nat, count: nat, reverse: bool)
    returns (results: seq<Found>, skipped: nat)
    requires skip < U32 && count < U32 && |AllEntries(levels)| < U32
    ensures
      var got := Loaded(levels, skip, count, reverse);
      results == ReadWindow(got, skip, count, reverse) && skipped == Min(skip, |got|)
  {
    var serialized := ReadLevels(levels, skip, count, reverse);
    EntriesSuffix(levels, if reverse then LevelsRead(levels, Wrap(skip + count), 0) else |levels|, |levels|);
    var numEntries := Wrap(|serialized|);
    if skip >= numEntries {
      return [], numEntries;
    }
    if count == 0 {
      return [], skip;
    }
    var numToLoad := numEntries - skip;
    if numToLoad > count {
      numToLoad := count;
    }
    results := CopyOut(serialized, skip, numToLoad, reverse);
    skipped := skip;
  }

  method CopyOut(serialized: seq<Hash>, skip: nat, numToLoad: nat, reverse: bool) returns (results: seq<Found>)
    requires skip + numToLoad <= |serialized|
    ensures results == ReadRun(serialized, skip, numToLoad, reverse)
  {
    results := [];
    for i := 0 to numToLoad
      invariant results == ReadRun(serialized, skip, i, reverse)
    {
      var offset := Wrap((if reverse then |serialized| - skip - i - 1 else skip + i) * ENTRY_SIZE);
      results := results + [if offset % ENTRY_SIZE == 0 then Listed(serialized[offset / ENTRY_SIZE]) else Torn];
    }
  }

  // ----- the search -----

  datatype Outcome =
    | Nothing
    | Page(txs: seq<Found>)
    | NoInformation
    | Panic

  function Requested(count: Option<int>): nat {
    if count.None? then 100 else if count.value < 0 then 1 else count.value
  }

  function ToSkip(skip: Option<int>): nat {
    if skip.None? || skip.value < 0 then 0 else skip.value
  }

  /** Everything known about the address, in the order asked for. */
  function Everything(mempool: seq<Hash>, levels: seq<seq<Hash>>, reverse: bool): seq<Hash> {
    if reverse then mempool + Reversed(AllEntries(levels)) else AllEntries(levels) + mempool
  }

  function Answer(txs: seq<Found>): Outcome {
    if txs == [] then NoInformation else Page(txs)
  }

  /** The defaults: 100 entries, at least one when the number is negative, nothing skipped. */
  lemma Defaults(n: int)
    ensures Requested(None) == 100 && (n < 0 ==> Requested(Some(n)) == 1) && (n >= 0 ==> Requested(Some(n)) == n)
    ensures ToSkip(None) == 0 && (n < 0 ==> ToSkip(Some(n)) == 0) && (n >= 0 ==> ToSkip(Some(n)) == n)
  {
  }

  /** The order of the one list: blocks oldest first and then the pool, or the pool and then the
      blocks newest first. */
  lemma EverythingInOrder(older: Hash, newer: Hash, waiting: Hash)
    ensures Everything([waiting], [[newer], [older]], false) == [older, newer, waiting]
    ensures Everything([waiting], [[newer], [older]], true) == [waiting, newer, older]
  {
    var levels := [[newer], [older]];
    assert Entries(levels, 1) == [newer] && AllEntries(levels) == [older] + [newer];
    assert Reversed([older, newer]) == [newer, older] by {
      ReversedAt([older, newer], 0);
      ReversedAt([older, newer], 1);
    }
  }

  /** The part of the memory pool asked for; None when the end of the range wraps around and
      slicing panics. */
  function FetchMempool(mempool: seq<Hash>, skip: nat, count: nat): (r: Option<(seq<Hash>, nat)>)
    requires skip < U32 && count < U32 && |mempool| < U32
    ensures r.None? <==> skip <= |mempool| && skip + count >= U32
    ensures r.Some? ==> r.value == (Window(mempool, skip, count), Min(skip, |mempool|))
  {
    var numAvailable := Wrap(|mempool|);
    if skip > numAvailable then
      assert Window(mempool, skip, count) == [];
      Some(([], numAvailable))
    else
      var wrapped := Wrap(skip + count);
      var rangeEnd := if wrapped > numAvailable then numAvailable else wrapped;
      if rangeEnd < skip then None else Some((mempool[skip..rangeEnd], skip))
  }

  /** The last fetch of a forward search starts inside the pool and its range wraps. */
  predicate ForwardWraps(mempool: seq<Hash>, mined: nat, skip: nat, count: nat) {
    mined <= skip <= mined + |mempool| && skip - mined + count >= U32
  }

  /** The first fetch of a reversed search starts inside the pool and its range wraps. */
  predicate ReverseWraps(mempool: seq<Hash>, skip: nat, count: nat) {
    skip <= |mempool| && skip + count >= U32
  }

  /** What a reversed lookup has read is all that the window needs. */
  predicate Enough(levels: seq<seq<Hash>>, k: nat, n: nat) {
    k + n < U32 || |AllEntries(levels)| <= k || Loaded(levels, k, n, true) == AllEntries(levels)
  }

  lemma {:induction false} DistinctSuffix(a: seq<Hash>, b: seq<Hash>)
    requires Distinct(a + b)
    ensures Distinct(b)
  {
    forall i, j | 0 <= i < j < |b|
      ensures b[i] != b[j]
    {
      assert (a + b)[|a| + i] == b[i] && (a + b)[|a| + j] == b[j];
    }
  }

  lemma LoadedIsSuffix(levels: seq<seq<Hash>>, k: nat, n: nat)
    ensures
      var got, all := Loaded(levels, k, n, true), AllEntries(levels);
      |got| <= |all| && all == all[..|all| - |got|] + got
  {
    EntriesSuffix(levels, LevelsRead(levels, Wrap(k + n), 0), |levels|);
  }

  /** The window over what was read has the right length exactly when enough was read, and is
      then the right window. */
  lemma EnoughIff(levels: seq<seq<Hash>>, k: nat, n: nat)
    requires 0 < n && |AllEntries(levels)| < U32
    ensures
      var got, all := Window(Reversed(Loaded(levels, k, n, true)), k, n), Window(Reversed(AllEntries(levels)), k, n);
      (|got| == |all| ==> Enough(levels, k, n)) && (Enough(levels, k, n) ==> got == all)
  {
    var got, all := Loaded(levels, k, n, true), AllEntries(levels);
    LoadedIsSuffix(levels, k, n);
    ShortWindow(Reversed(got), k, n);
    ShortWindow(Reversed(all), k, n);
    if k + n < U32 {
      LoadedSuffices(levels, k, n, true);
    }
  }

  /** The lookup of a reversed search. */
  function IndexRead(levels: seq<seq<Hash>>, k: nat, n: nat): seq<Found> {
    if n == 0 then [] else ReadWindow(Loaded(levels, k, n, true), k, n, true)
  }

  predicate IndexReadRight(levels: seq<seq<Hash>>, k: nat, n: nat) {
    n == 0 || (Enough(levels, k, n) && WindowFits(|Loaded(levels, k, n, true)|, k, n, true))
  }

  lemma IndexReadIff(levels: seq<seq<Hash>>, k: nat, n: nat)
    requires |AllEntries(levels)| < U32
    ensures
      var wanted := Whole(Window(Reversed(AllEntries(levels)), k, n));
      && (IndexReadRight(levels, k, n) ==> IndexRead(levels, k, n) == wanted)
      && (Distinct(AllEntries(levels)) && IndexRead(levels, k, n) == wanted ==> IndexReadRight(levels, k, n))
  {
    var got, all := Loaded(levels, k, n, true), AllEntries(levels);
    if n == 0 {
      ShortWindow(Reversed(all), k, 0);
    } else {
      ReadWindowIff(got, k, n, true);
      EnoughIff(levels, k, n);
      LoadedIsSuffix(levels, k, n);
      if Distinct(all) {
        DistinctSuffix(all[..|all| - |got|], got);
      }
    }
  }

  /** How many entries a reversed search skips in the index, and how many it still asks for. */
  function IndexSkip(mempool: seq<Hash>, skip: nat): nat {
    skip - Min(skip, |mempool|)
  }

  function IndexCount(mempool: seq<Hash>, skip: nat, count: nat): nat {
    count - |Window(mempool, skip, count)|
  }

  /** The page a reversed search puts together, when it does not panic. */
  function ReversedPage(mempool: seq<Hash>, levels: seq<seq<Hash>>, skip: nat, count: nat): seq<Found> {
    Whole(Window(mempool, skip, count)) + IndexRead(levels, IndexSkip(mempool, skip), IndexCount(mempool, skip, count))
  }

  lemma NoneLeft(mempool: seq<Hash>, levels: seq<seq<Hash>>, skip: nat, count: nat)
    requires |Window(mempool, skip, count)| >= count
    ensures ReversedPage(mempool, levels, skip, count) == Whole(Window(mempool, skip, count))
  {
    ShortWindow(mempool, skip, count);
  }

  predicate ReversedRight(mempool: seq<Hash>, levels: seq<seq<Hash>>, skip: nat, count: nat) {
    IndexReadRight(levels, IndexSkip(mempool, skip), IndexCount(mempool, skip, count))
  }

  lemma ReversedPageIff(mempool: seq<Hash>, levels: seq<seq<Hash>>, skip: nat, count: nat)
    requires |AllEntries(levels)| < U32
    ensures
      var page := ReversedPage(mempool, levels, skip, count);
      var wanted := Whole(Window(Everything(mempool, levels, true), skip, count));
      && (ReversedRight(mempool, levels, skip, count) ==> page == wanted)
      && (Distinct(AllEntries(levels)) && page == wanted ==> ReversedRight(mempool, levels, skip, count))
  {
    var k, n := IndexSkip(mempool, skip), IndexCount(mempool, skip, count);
    var pool, mined := Window(mempool, skip, count), Window(Reversed(AllEntries(levels)), k, n);
    assert Window(Everything(mempool, levels, true), skip, count) == pool + mined by {
      WindowConcat(mempool, Reversed(AllEntries(levels)), skip, count);
    }
    WholeConcat(pool, mined);
    SameTail(Whole(pool), IndexRead(levels, k, n), Whole(mined));
    IndexReadIff(levels, k, n);
  }

  /** The page a forward search puts together, when it does not panic. */
  function ForwardPage(mempool: seq<Hash>, levels: seq<seq<Hash>>, skip: nat, count: nat): seq<Found> {
    var mined := ReadWindow(AllEntries(levels), skip, count, false);
    var left := if |mined| < count then count - |mined| else 0;
    mined + Whole(Window(mempool, skip - Min(skip, |AllEntries(levels)|), left))
  }

  /** The numbers of a forward search: the range of its last fetch wraps exactly when stated, and
      a full page needs no last fetch. */
  lemma ForwardFetch(mempool: seq<Hash>, levels: seq<seq<Hash>>, skip: nat, count: nat)
    requires 0 < count
    ensures
      var all := AllEntries(levels);
      var read := ReadWindow(all, skip, count, false);
      var k := skip - Min(skip, |all|);
      && |read| <= count
      && (|read| == count ==>
            ForwardPage(mempool, levels, skip, count) == read && !ForwardWraps(mempool, |all|, skip, count))
      && (|read| < count < U32 ==>
            (ForwardWraps(mempool, |all|, skip, count) <==> k <= |mempool| && k + (count - |read|) >= U32))
  {
    var all := AllEntries(levels);
    var read := ReadWindow(all, skip, count, false);
    ReadWindowIff(all, skip, count, false);
    ShortWindow(all, skip, count);
    if |read| == count {
      ShortWindow(mempool, skip - Min(skip, |all|), 0);
    }
  }

  lemma ForwardPageIff(mempool: seq<Hash>, levels: seq<seq<Hash>>, skip: nat, count: nat)
    ensures
      var page := ForwardPage(mempool, levels, skip, count);
      var wanted := Whole(Window(Everything(mempool, levels, false), skip, count));
      && (WindowFits(|AllEntries(levels)|, skip, count, false) ==> page == wanted)
      && (Distinct(AllEntries(levels)) && page == wanted ==> WindowFits(|AllEntries(levels)|, skip, count, false))
  {
    var all := AllEntries(levels);
    var read, mined := ReadWindow(all, skip, count, false), Window(all, skip, count);
    ShortWindow(all, skip, count);
    ReadWindowIff(all, skip, count, false);
    var pool := Window(mempool, skip - Min(skip, |all|), count - |mined|);
    assert Window(Everything(mempool, levels, false), skip, count) == mined + pool by {
      WindowConcat(all, mempool, skip, count);
    }
    WholeConcat(mined, pool);
    SameHead(read, Whole(mined), Whole(pool));
  }

  method SearchReversed(mempool: seq<Hash>, levels: seq<seq<Hash>>, numRequested: nat, numToSkip: nat)
    returns (r: Outcome)
    requires 0 < numRequested && numToSkip < U32 && |mempool| < U32 && |AllEntries(levels)| < U32
    ensures r != Nothing
    ensures numRequested < U32 ==>
      r == if ReverseWraps(mempool, numToSkip, numRequested) then Panic
           else Answer(ReversedPage(mempool, levels, numToSkip, numRequested))
  {
    var pool := FetchMempool(mempool, numToSkip, Wrap(numRequested));
    if pool.None? {
      return Panic;
    }
    var txs, numSkipped := Whole(pool.value.0), pool.value.1;
    if |txs| < numRequested {
      var k, n := Wrap(numToSkip - numSkipped), Wrap(numRequested - |txs|);
      assert k == IndexSkip(mempool, numToSkip);
      var mined, _ := FetchIndexEntries(levels, k, n, true);
      if numRequested < U32 {
        assert 0 < n == IndexCount(mempool, numToSkip, numRequested);
        assert mined == IndexRead(levels, k, n);
      }
      txs := txs + mined;
    } else if numRequested < U32 {
      NoneLeft(mempool, levels, numToSkip, numRequested);
    }
    return if txs == [] then NoInformation else Page(txs);
  }

  method SearchForward(mempool: seq<Hash>, levels: seq<seq<Hash>>, numRequested: nat, numToSkip: nat)
    returns (r: Outcome)
    requires 0 < numRequested && numToSkip < U32 && |mempool| < U32 && |AllEntries(levels)| < U32
    ensures r != Nothing
    ensures numRequested < U32 ==>
      r == if ForwardWraps(mempool, |AllEntries(levels)|, numToSkip, numRequested) then Panic
           else Answer(ForwardPage(mempool, levels, numToSkip, numRequested))
  {
    ghost var all := AllEntries(levels);
    var txs, numSkipped := FetchIndexEntries(levels, numToSkip, Wrap(numRequested), false);
    ForwardFetch(mempool, levels, numToSkip, numRequested);
    if |txs| < numRequested {
      var k, n := Wrap(numToSkip - numSkipped), Wrap(numRequested - |txs|);
      assert k == numToSkip - Min(numToSkip, |all|);
      assert numRequested < U32 ==> n == numRequested - |txs|;
      var pool := FetchMempool(mempool, k, n);
      if pool.None? {
        return Panic;
      }
      txs := txs + Whole(pool.value.0);
    }
    return if txs == [] then NoInformation else Page(txs);
  }

  /** The reversed search reads the pool first, the other one last.  A search for fewer than 2^32
      entries returns the window of one list that starts at the 32-bit remainder of the number
      to skip, except exactly when the stated sums or offsets wrap around. */
  method Search(mempool: seq<Hash>, levels: seq<seq<Hash>>, count: Option<int>, skip: Option<int>, reverse: bool)
    returns (r: Outcome)
    requires |mempool| < U32 && |AllEntries(levels)| < U32
    ensures r == Nothing <==> Requested(count) == 0
    ensures 0 < Requested(count) < U32 ==>
      SearchResult(mempool, levels, Requested(count), Wrap(ToSkip(skip)), reverse, r)
  {
    var numRequested := 100;
    if count.Some? {
      numRequested := if count.value < 0 then 1 else count.value;
    }
    if numRequested == 0 {
      return Nothing;
    }
    var numToSkip := 0;
    if skip.Some? {
      numToSkip := if skip.value < 0 then 0 else Wrap(skip.value);
    }
    if reverse {
      r := SearchReversed(mempool, levels, numRequested, numToSkip);
      ReversedPageIff(mempool, levels, numToSkip, numRequested);
    } else {
      r := SearchForward(mempool, levels, numRequested, numToSkip);
      ForwardPageIff(mempool, levels, numToSkip, numRequested);
    }
  }

  /** Neither a sum nor an offset that matters wraps around. */
  predicate NothingWraps(mempool: seq<Hash>, levels: seq<seq<Hash>>, count: nat, skip: nat, reverse: bool) {
    if reverse then !ReverseWraps(mempool, skip, count) && ReversedRight(mempool, levels, skip, count)
    else
      && !ForwardWraps(mempool, |AllEntries(levels)|, skip, count)
      && WindowFits(|AllEntries(levels)|, skip, count, false)
  }

  /** The index keeps each transaction of an address once; without that, a wrong read could hit
      the right entry by chance. */
  ghost predicate SearchResult(
    mempool: seq<Hash>, levels: seq<seq<Hash>>, count: nat, skip: nat, reverse: bool, r: Outcome)
  {
    var wanted := Answer(Whole(Window(Everything(mempool, levels, reverse), skip, count)));
    && (r == Panic <==>
        if reverse then ReverseWraps(mempool, skip, count)
        else ForwardWraps(mempool, |AllEntries(levels)|, skip, count))
    && (NothingWraps(mempool, levels, count, skip, reverse) ==> r == wanted)
    && (Distinct(AllEntries(levels)) && r == wanted ==> NothingWraps(mempool, levels, count, skip, reverse))
  }

  /** Two mined entries, an empty pool: skipping one and asking for 2^32 - 1 in reverse reads no
      level at all. */
  lemma ReadsTooLittle(a: Hash, b: Hash)
    ensures !NothingWraps([], [[a], [b]], U32 - 1, 1, true)
    ensures ReversedPage([], [[a], [b]], 1, U32 - 1) == []
    ensures Window(Everything([], [[a], [b]], true), 1, U32 - 1) == [b]
  {
    var levels := [[a], [b]];
    assert Entries(levels, 1) == [a] && AllEntries(levels) == [b] + [a];
    assert Reversed([b, a]) == [a, b] by {
      assert [b, a][1..] == [a] && Reversed([a]) == [a];
    }
    assert Loaded(levels, 1, U32 - 1, true) == [];
    assert Everything([], levels, true) == [a, b];
  }

  /** An address with more than 357913942 entries: asking for one entry from there on reads the
      twelve bytes from offset 8. */
  lemma TornEntry(levels: seq<seq<Hash>>)
    requires 357913942 < |AllEntries(levels)|
    ensures !NothingWraps([], levels, 1, 357913942, false)
    ensures ForwardPage([], levels, 357913942, 1) == [Torn]
  {
    var all := AllEntries(levels);
    assert ReadAt(all, 357913942) == Torn;
    assert ReadWindow(all, 357913942, 1, false) == [Torn];
  }
}
