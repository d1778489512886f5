/** The chunked rescan.  It runs while the chain may reorganize under it, and hands the
    client over to live notifications once it has caught up with the tip. */
module Rescan {
  import opened Wire
  import opened Chain
  import opened RescanBlock

  const MAX_INT32: nat := 0x7FFF_FFFF
  const MAX_INV_PER_MSG: nat := 50000

  datatype Lookup = Found | NotFound | Broken

  /** What the surroundings answer at one moment of a run.  The tip may be any stored
      block at any moment, so a list of moments is an arbitrary history of reorgs,
      database failures, ticks and disconnects. */
  datatype Moment = Moment(tip: Hash, rangeFails: bool, lookup: Lookup, quit: bool, tick: bool)

  datatype Error = Database | Reorganize

  /** How far a run got.  Running means that the moments ran out first. */
  datatype Outcome =
    | Running
    | Finished(last: Option<Hash>)
    | Stopped
    | Failed(error: Error)

  /** The live registration: the tip seen while the block manager was paused and the
      outpoints registered with it. */
  datatype Registration = Registration(tip: Hash, unspent: set<OutPoint>)

  datatype Recovery = Recovered(hashes: seq<Hash>) | RecoveryFailed(error: Error) | RecoveryRunning

  // ---- Runs of blocks ----

  /** Stored blocks at consecutive heights from `start`, each the child of the one before. */
  ghost predicate LinkedRun(tree: Tree, start: nat, run: seq<Block>) {
    && (forall k :: 0 <= k < |run| ==> run[k].hash in tree && tree[run[k].hash] == run[k] && run[k].height == start + k)
    && (forall k :: 0 < k < |run| ==> run[k - 1].hash == run[k].prev)
  }

  function Hashes(run: seq<Block>): (hs: seq<Hash>)
    ensures |hs| == |run| && forall k :: 0 <= k < |run| ==> hs[k] == run[k].hash
  {
    seq(|run|, k requires 0 <= k < |run| => run[k].hash)
  }

  function LastHash(run: seq<Block>): Option<Hash> {
    if run == [] then None else Some(run[|run| - 1].hash)
  }

  /** The main chain of `tip` from height `start` on. */
  function AncestorsFrom(tree: Tree, tip: Hash, start: nat): seq<Hash>
    requires ValidTree(tree) && tip in tree
  {
    if start <= tree[tip].height then MainChain(tree, tip)[start..] else []
  }

  /** Each block of a linked run is on the main chain of every later one. */
  lemma {:induction false} LinkedRunEntry(tree: Tree, start: nat, run: seq<Block>, k: nat, n: nat)
    requires ValidTree(tree) && LinkedRun(tree, start, run) && k <= n < |run|
    ensures start + k < |MainChain(tree, run[n].hash)| && MainChain(tree, run[n].hash)[start + k] == run[k].hash
    decreases n
  {
    if k < n {
      LinkedRunEntry(tree, start, run, k, n - 1);
      assert tree[run[n].hash].height > 0 && run[n - 1].hash == run[n].prev;
    }
  }

  /** A linked run is the main chain of its last block. */
  lemma LinkedRunIsMainChain(tree: Tree, start: nat, run: seq<Block>)
    requires ValidTree(tree) && LinkedRun(tree, start, run) && run != []
    ensures start <= run[|run| - 1].height
    ensures Hashes(run) == MainChain(tree, run[|run| - 1].hash)[start..]
  {
    var chain := MainChain(tree, run[|run| - 1].hash);
    forall k | 0 <= k < |run|
      ensures start + k < |chain| && chain[start + k] == run[k].hash
    {
      LinkedRunEntry(tree, start, run, k, |run| - 1);
    }
  }

  /** What a registration at `tip` covers: the run is all of the tip's ancestors from
      the start exactly when something was scanned or nothing was there to scan. */
  lemma RegistrationCoverage(tree: Tree, start: nat, run: seq<Block>, tip: Hash)
    requires ValidTree(tree) && tip in tree && LinkedRun(tree, start, run)
    requires run != [] ==> LastHash(run) == Some(tip)
    ensures Hashes(run) == AncestorsFrom(tree, tip, start) <==> run != [] || tree[tip].height < start
  {
    if run != [] {
      LinkedRunIsMainChain(tree, start, run);
    } else if tree[tip].height >= start {
      assert |AncestorsFrom(tree, tip, start)| > 0;
    }
  }

  /** The uncovered case is real: the tip drops below the start while the range is
      looked up and comes back before the pause, so nothing is scanned although the
      starting block is on the chain the client is registered at. */
  method UncoveredRegistration() returns (tree: Tree, run: seq<Block>, reg: Option<Registration>)
    ensures ValidTree(tree) && run == []
    ensures reg.Some? && reg.value.tip in tree && tree[reg.value.tip].height == 1
    ensures Hashes(run) != AncestorsFrom(tree, reg.value.tip, 1)
  {
    var genesis := Block(Hash(7), ZERO_HASH, 0, []);
    var child := Block(Hash(8), Hash(7), 1, []);
    tree := map[Hash(7) := genesis, Hash(8) := child];
    var wsc := new WsClient(0);
    var keys := new RescanKeys({"a"}, {});
    var before := Moment(Hash(7), false, Found, false, false);
    var after := Moment(Hash(8), false, Found, false, false);
    var outcome;
    assert MainChain(tree, Hash(7)) == [Hash(7)];
    outcome, run, reg := ScanBlockChunks(tree, wsc, keys, 1, MAX_INT32, [before, after]);
    assert HeightRange(tree, Hash(7), 1, 1 + MAX_INV_PER_MSG) == [];
    RegistrationCoverage(tree, 1, run, Hash(8));
  }

  // ---- Histories ----

  /** No block lookup fails. */
  predicate AllFound(moments: seq<Moment>) {
    forall k :: 0 <= k < |moments| ==> moments[k].lookup == Found
  }

  /** No lookup of any kind fails. */
  predicate NothingFails(moments: seq<Moment>) {
    AllFound(moments) && forall k :: 0 <= k < |moments| ==> !moments[k].rangeFails
  }

  /** The client is neither seen to quit nor sent progress, which may show that it has. */
  predicate Undisturbed(moments: seq<Moment>) {
    forall k :: 0 <= k < |moments| ==> !moments[k].quit && !moments[k].tick
  }

  /** The chain does not move. */
  predicate Unmoved(moments: seq<Moment>, tip: Hash) {
    forall k :: 0 <= k < |moments| ==> moments[k].tip == tip
  }

  /** How many blocks are left from a height on. */
  function Left(tree: Tree, tip: Hash, height: nat): nat
    requires tip in tree
  {
    if height <= tree[tip].height then tree[tip].height + 1 - height else 0
  }

  /** There are moments enough to scan what is left and to hand over: one for each block, one for
      each range, and two at the end. */
  predicate Enough(tree: Tree, tip: Hash, height: nat, moments: seq<Moment>, at: nat)
    requires tip in tree
  {
    at + 2 * Left(tree, tip, height) + 2 <= |moments|
  }

  /** The list goes on where the run ends. */
  predicate Continues(tree: Tree, run: seq<Block>, hashes: seq<Hash>) {
    run != [] && hashes != [] && hashes[0] in tree ==> tree[hashes[0]].prev == run[|run| - 1].hash
  }

  /** The run is a part of the tip's main chain. */
  ghost predicate OnChain(tree: Tree, tip: Hash, start: nat, run: seq<Block>)
    requires ValidTree(tree) && tip in tree
  {
    run != [] ==>
      start + |run| <= tree[tip].height + 1 && MainChain(tree, tip)[start + |run| - 1] == run[|run| - 1].hash
  }

  lemma OnChainContinues(tree: Tree, tip: Hash, start: nat, run: seq<Block>, hi: nat)
    requires ValidTree(tree) && tip in tree && OnChain(tree, tip, start, run) && start + |run| <= hi
    ensures Continues(tree, run, HeightRange(tree, tip, start + |run|, hi))
  {
    var lo := start + |run|;
    if run != [] && HeightRange(tree, tip, lo, hi) != [] {
      MainChainLinked(tree, tip, lo - 1);
    }
  }

  lemma OnChainExtended(tree: Tree, tip: Hash, start: nat, run: seq<Block>, hi: nat, more: seq<Block>)
    requires ValidTree(tree) && tip in tree && start + |run| <= hi
    requires HeightRange(tree, tip, start + |run|, hi) != []
    requires Hashes(more) == Hashes(run) + HeightRange(tree, tip, start + |run|, hi)
    ensures OnChain(tree, tip, start, more) && |more| > |run|
    ensures Left(tree, tip, start + |more|) + (|more| - |run|) == Left(tree, tip, start + |run|)
  {
    var hashes := HeightRange(tree, tip, start + |run|, hi);
    assert Hashes(more)[|more| - 1] == hashes[|hashes| - 1];
  }

  lemma OnChainToTip(tree: Tree, tip: Hash, start: nat, run: seq<Block>)
    requires ValidTree(tree) && tip in tree && OnChain(tree, tip, start, run) && run != []
    requires Left(tree, tip, start + |run|) == 0
    ensures LastHash(run) == Some(tip)
  {
  }

  // ---- The rescan loops ----

  /** The first range of a rescan through the tip comes back empty. */
  ghost predicate NothingToScan(tree: Tree, start: nat, maxBlock: nat, moments: seq<Moment>) {
    && start < maxBlock == MAX_INT32 && |moments| >= 2 && !moments[0].rangeFails
    && moments[0].tip in tree && tree[moments[0].tip].height < start
  }

  /** The chain now read goes on from the last block, if there is one. */
  ghost predicate Recovers(
    tree: Tree, minBlock: nat, maxBlock: nat, last: Option<Hash>, moments: seq<Moment>, at: nat)
    requires ValidTree(tree) && minBlock <= maxBlock
  {
    && at + 2 <= |moments| && !moments[at].rangeFails && moments[at].tip in tree
    && (last.Some? && HeightRange(tree, moments[at].tip, minBlock, maxBlock) != [] ==>
          && moments[at + 1].lookup == Found && MainChain(tree, moments[at].tip)[minBlock] in tree
          && tree[MainChain(tree, moments[at].tip)[minBlock]].prev == last.value)
  }

  method RecoverFromReorg(
    tree: Tree, minBlock: nat, maxBlock: nat, last: Option<Hash>, moments: seq<Moment>, at: nat)
    returns (result: Recovery, next: nat)
    requires ValidTree(tree) && minBlock <= maxBlock && at <= |moments|
    requires forall k :: 0 <= k < |moments| ==> moments[k].tip in tree
    ensures at <= next <= |moments|
    ensures at < |moments| && moments[at].rangeFails ==> result == RecoveryFailed(Database)
    ensures result.Recovered? ==>
      && at < next && LinkedHashes(tree, minBlock, result.hashes)
      && result.hashes == HeightRange(tree, moments[at].tip, minBlock, maxBlock)
    ensures at < |moments| && !moments[at].rangeFails && tree[moments[at].tip].height < minBlock ==>
      result == Recovered([])
    ensures Recovers(tree, minBlock, maxBlock, last, moments, at) ==> result.Recovered?
    ensures at + 2 <= |moments| && !moments[at].rangeFails ==> !result.RecoveryRunning?
    ensures result == RecoveryFailed(Reorganize) ==>
      at + 2 <= |moments| && !moments[at].rangeFails && moments[at + 1].lookup == Found
    ensures result.Recovered? && result.hashes != [] ==> minBlock + |result.hashes| <= maxBlock
    ensures result.Recovered? && result.hashes != [] && last.Some? ==>
      result.hashes[0] in tree && tree[result.hashes[0]].prev == last.value
  {
    if at == |moments| {
      return RecoveryRunning, at;
    }
    var now := moments[at];
    next := at + 1;
    if now.rangeFails {
      return RecoveryFailed(Database), next;
    }
    var hashes := HeightRange(tree, now.tip, minBlock, maxBlock);
    HeightRangeLinked(tree, now.tip, minBlock, maxBlock);
    if last.None? || hashes == [] {
      return Recovered(hashes), next;
    }
    if next == |moments| {
      return RecoveryRunning, next;
    }
    now := moments[next];
    next := next + 1;
    if now.lookup != Found {
      return RecoveryFailed(Database), next;
    }
    if tree[hashes[0]].prev != last.value {
      return RecoveryFailed(Reorganize), next;
    }
    return Recovered(hashes), next;
  }

  /** One rescan over any history of moments.

      - The scanned blocks are a linked run from the requested start, and a bounded
        rescan stays below its bound.
      - The client is always told a prefix of the notifications of the scanned blocks; as
        long as it accepts notifications, all of them, and the tracked outpoints are those
        of the scanned blocks.
      - Whenever the client is registered for live notifications, it is with those
        outpoints, and the run covers the registered tip's ancestors from the start
        exactly when the tip at the first lookup had reached the start, or the registered
        tip lies below it.
      - A rescan through the tip that finishes has registered the client, unless a block went
        missing, and every other end has its cause.
      - With nothing in the way every block asked for is scanned, and a rescan through the tip
        hands over there. */
  method ScanBlockChunks(
    tree: Tree, wsc: WsClient, lookups: RescanKeys, start: nat, maxBlock: nat, moments: seq<Moment>)
    returns (outcome: Outcome, run: seq<Block>, reg: Option<Registration>)
    requires ValidTree(tree) && maxBlock <= MAX_INT32
    requires forall k :: 0 <= k < |moments| ==> moments[k].tip in tree
    modifies wsc, lookups
    ensures LinkedRun(tree, start, run)
    ensures run != [] ==> start + |run| <= maxBlock
    ensures Tracks(wsc, lookups, old(lookups.unspent), old(wsc.queue), run)
    ensures reg.Some? ==>
      && outcome.Finished? && maxBlock == MAX_INT32 && reg.value.tip in tree && moments != []
      && reg.value.unspent == lookups.unspent
      && (run == [] <==> tree[moments[0].tip].height < start)
      && (Hashes(run) == AncestorsFrom(tree, reg.value.tip, start) <==>
          tree[moments[0].tip].height >= start || tree[reg.value.tip].height < start)
    ensures NothingToScan(tree, start, maxBlock, moments) ==>
      run == [] && reg == Some(Registration(moments[1].tip, old(lookups.unspent)))
    ensures outcome.Finished? ==> outcome.last == LastHash(run)
    ensures outcome.Finished? && maxBlock == MAX_INT32 && start < maxBlock && AllFound(moments) ==>
      reg.Some? || start + |run| == maxBlock
    ensures outcome == Failed(Database) ==> !NothingFails(moments)
    ensures outcome == Stopped ==> !Undisturbed(moments)
    ensures outcome == Failed(Reorganize) ==> !AllFound(moments) || !Unmoved(moments, FirstTip(moments))
    ensures outcome.Finished? && AllFound(moments) ==>
      start + |run| >= maxBlock || SomeTipBelow(tree, start + |run|, moments)
    ensures start >= maxBlock ==> outcome.Finished? && reg.None?
    ensures Succeeds(tree, FirstTip(moments), start, maxBlock, moments) ==>
      && outcome.Finished? && Hashes(run) == HeightRange(tree, FirstTip(moments), start, maxBlock)
      && (maxBlock == MAX_INT32 && tree[FirstTip(moments)].height + 1 < maxBlock ==>
            reg == Some(Registration(FirstTip(moments), lookups.unspent)))
  {
    run := [];
    var at := 0;
    ghost var unspent0, queue0 := lookups.unspent, wsc.queue;
    assert BlocksNtfns(lookups.addrs, unspent0, run) == [];

    while start + |run| < maxBlock
      invariant Between(tree, start, maxBlock, moments, run, at)
      invariant at == 0 ==> lookups.unspent == unspent0
      invariant Tracks(wsc, lookups, unspent0, queue0, run)
      invariant start >= maxBlock ==> run == []
      decreases |moments| - at
    {
      var end;
      ghost var used := at;
      end, run, at := NextChunk(tree, wsc, lookups, start, maxBlock, moments, run, at, unspent0, queue0);
      if end.Some? {
        if end.value.reg.Some? {
          Covered(tree, start, maxBlock, moments, run, used, end.value.reg.value);
        }
        return end.value.outcome, run, end.value.reg;
      }
    }
    AtBound(tree, start, maxBlock, moments, run, at);
    return Finished(LastHash(run)), run, None;
  }

  /** How a rescan ends. */
  datatype End = End(outcome: Outcome, reg: Option<Registration>)

  function FirstTip(moments: seq<Moment>): Hash {
    if moments == [] then ZERO_HASH else moments[0].tip
  }

  /** What holds whenever the outer loop comes round. */
  ghost predicate Between(tree: Tree, start: nat, maxBlock: nat, moments: seq<Moment>, run: seq<Block>, at: nat)
    requires ValidTree(tree)
  {
    var tip := FirstTip(moments);
    && at <= |moments| && (at == 0 <==> run == []) && LinkedRun(tree, start, run)
    && (run != [] ==> tip in tree && tree[tip].height >= start && start + |run| <= maxBlock)
    && (tip in tree && AllFound(moments) && Unmoved(moments, tip) ==> OnChain(tree, tip, start, run))
    && (Succeeds(tree, tip, start, maxBlock, moments) ==> Enough(tree, tip, start + |run|, moments, at))
  }

  /** The run is everything asked for, as far as the tip's chain goes. */
  ghost predicate AllScanned(tree: Tree, tip: Hash, start: nat, maxBlock: nat, run: seq<Block>) {
    ValidTree(tree) && tip in tree && start <= maxBlock && Hashes(run) == HeightRange(tree, tip, start, maxBlock)
  }

  predicate SomeTipBelow(tree: Tree, height: nat, moments: seq<Moment>) {
    exists k :: 0 <= k < |moments| && moments[k].tip in tree && tree[moments[k].tip].height < height
  }

  /** A run on the tip's chain that reaches the bound, or ends at the tip. */
  lemma OnChainAll(tree: Tree, tip: Hash, start: nat, maxBlock: nat, run: seq<Block>)
    requires ValidTree(tree) && tip in tree && OnChain(tree, tip, start, run) && LinkedRun(tree, start, run)
    requires start + |run| <= maxBlock
    requires start + |run| == maxBlock || tree[tip].height < start + |run|
    ensures AllScanned(tree, tip, start, maxBlock, run)
  {
    if run != [] {
      LinkedRunIsMainChain(tree, start, run);
      MainChainPrefix(tree, tip, start + |run| - 1);
    }
  }

  lemma AtBound(tree: Tree, start: nat, maxBlock: nat, moments: seq<Moment>, run: seq<Block>, at: nat)
    requires ValidTree(tree) && Between(tree, start, maxBlock, moments, run, at) && start + |run| >= maxBlock
    ensures Succeeds(tree, FirstTip(moments), start, maxBlock, moments) ==>
      && AllScanned(tree, FirstTip(moments), start, maxBlock, run)
      && tree[FirstTip(moments)].height + 1 >= maxBlock
  {
    if Succeeds(tree, FirstTip(moments), start, maxBlock, moments) {
      OnChainAll(tree, FirstTip(moments), start, maxBlock, run);
    }
  }

  lemma Covered(
    tree: Tree, start: nat, maxBlock: nat, moments: seq<Moment>, run: seq<Block>, used: nat, reg: Registration)
    requires ValidTree(tree) && reg.tip in tree && Between(tree, start, maxBlock, moments, run, used)
    requires start + |run| < maxBlock && HandedOver(tree, start, maxBlock, moments, run, used, reg)
    ensures Hashes(run) == AncestorsFrom(tree, reg.tip, start) <==> run != [] || tree[reg.tip].height < start
    ensures Succeeds(tree, FirstTip(moments), start, maxBlock, moments) ==>
      AllScanned(tree, FirstTip(moments), start, maxBlock, run) && reg.tip == FirstTip(moments)
  {
    RegistrationCoverage(tree, start, run, reg.tip);
    if Succeeds(tree, FirstTip(moments), start, maxBlock, moments) {
      OnChainAll(tree, FirstTip(moments), start, maxBlock, run);
    }
  }

  /** What may be said of an end without a registration. */
  ghost predicate Caused(
    tree: Tree, start: nat, maxBlock: nat, moments: seq<Moment>, run: seq<Block>, outcome: Outcome)
  {
    && (outcome.Finished? && AllFound(moments) ==>
          maxBlock != MAX_INT32 && SomeTipBelow(tree, start + |run|, moments))
    && (outcome == Failed(Database) ==> !NothingFails(moments))
    && (outcome == Stopped ==> !Undisturbed(moments))
    && (outcome == Failed(Reorganize) ==> !AllFound(moments) || !Unmoved(moments, FirstTip(moments)))
    && (Succeeds(tree, FirstTip(moments), start, maxBlock, moments) ==>
          maxBlock != MAX_INT32 && outcome.Finished? && AllScanned(tree, FirstTip(moments), start, maxBlock, run))
  }

  /** What may be said of a hand-over. */
  ghost predicate HandedOver(
    tree: Tree, start: nat, maxBlock: nat, moments: seq<Moment>, run: seq<Block>, used: nat, reg: Registration)
  {
    && maxBlock == MAX_INT32 && used + 1 < |moments| && reg.tip == moments[used + 1].tip
    && moments[used].tip in tree && tree[moments[used].tip].height < start + |run|
    && (run != [] ==> LastHash(run) == Some(reg.tip))
  }

  /** What may be said of any end. */
  ghost predicate Ends(
    tree: Tree, start: nat, maxBlock: nat, moments: seq<Moment>, run: seq<Block>, used: nat, end: End)
  {
    && (end.outcome.Finished? ==> end.outcome.last == LastHash(run))
    && (end.reg.None? ==> Caused(tree, start, maxBlock, moments, run, end.outcome))
    && (end.reg.Some? ==>
          end.outcome.Finished? && HandedOver(tree, start, maxBlock, moments, run, used, end.reg.value))
  }

  /** One round of the outer loop: a range of hashes, then either its blocks or, when there are
      none, the end or the hand-over. */
  method NextChunk(
    tree: Tree, wsc: WsClient, lookups: RescanKeys, start: nat, maxBlock: nat, moments: seq<Moment>,
    scanned: seq<Block>, used: nat, ghost unspent0: set<OutPoint>, ghost queue0: seq<Ntfn>)
    returns (end: Option<End>, run: seq<Block>, at: nat)
    requires ValidTree(tree) && maxBlock <= MAX_INT32 && start + |scanned| < maxBlock
    requires forall k :: 0 <= k < |moments| ==> moments[k].tip in tree
    requires Between(tree, start, maxBlock, moments, scanned, used)
    requires Tracks(wsc, lookups, unspent0, queue0, scanned)
    modifies wsc, lookups
    ensures Tracks(wsc, lookups, unspent0, queue0, run) && LinkedRun(tree, start, run)
    ensures run != [] ==> start + |run| <= maxBlock
    ensures end.None? ==> Between(tree, start, maxBlock, moments, run, at) && at > used
    ensures end.Some? ==> Ends(tree, start, maxBlock, moments, run, used, end.value)
    ensures end.Some? && end.value.reg.Some? ==>
      run == scanned && end.value.reg.value.unspent == lookups.unspent == old(lookups.unspent)
    ensures NothingToScan(tree, start, maxBlock, moments) && used == 0 ==> end.Some? && end.value.reg.Some?
    ensures used < |moments| && moments[used].rangeFails ==>
      end == Some(End(Failed(Database), None)) && run == scanned
  {
    run, at := scanned, used;
    var failed, hashList, hi := FetchRange(tree, start, maxBlock, moments, run, at);
    if failed.Some? {
      return Some(End(failed.value, None)), run, at;
    }
    if hashList == [] {
      end, at := FinishOrWait(tree, lookups, start, maxBlock, moments, run, used);
    } else {
      end, run, at := ScanRange(
        tree, wsc, lookups, start, maxBlock, hi, hashList, moments, run, used, unspent0, queue0);
    }
  }

  /** Looks up the next hashes, limited to one inventory. */
  method FetchRange(
    tree: Tree, start: nat, maxBlock: nat, moments: seq<Moment>, run: seq<Block>, at: nat)
    returns (failed: Option<Outcome>, hashList: seq<Hash>, ghost hi: nat)
    requires ValidTree(tree) && start + |run| < maxBlock
    requires forall k :: 0 <= k < |moments| ==> moments[k].tip in tree
    requires Between(tree, start, maxBlock, moments, run, at)
    ensures failed.Some? ==> Ends(tree, start, maxBlock, moments, run, at, End(failed.value, None))
    ensures at < |moments| && moments[at].rangeFails ==> failed == Some(Failed(Database))
    ensures failed.None? <==> at < |moments| && !moments[at].rangeFails
    ensures failed.None? ==>
      && start + |run| < hi <= maxBlock && hi <= start + |run| + MAX_INV_PER_MSG
      && hashList == HeightRange(tree, moments[at].tip, start + |run|, hi)
      && (hashList == [] <==> tree[moments[at].tip].height < start + |run|)
  {
    failed, hashList := None, [];
    var minBlock := start + |run|;
    var maxLoopBlock := if maxBlock - minBlock > MAX_INV_PER_MSG then minBlock + MAX_INV_PER_MSG else maxBlock;
    hi := maxLoopBlock;
    if at == |moments| {
      NoRange(tree, start, maxBlock, moments, run, at, Running);
      failed := Some(Running);
    } else if moments[at].rangeFails {
      NoRange(tree, start, maxBlock, moments, run, at, Failed(Database));
      failed := Some(Failed(Database));
    } else {
      hashList := HeightRange(tree, moments[at].tip, minBlock, maxLoopBlock);
    }
  }

  lemma NoRange(
    tree: Tree, start: nat, maxBlock: nat, moments: seq<Moment>, run: seq<Block>, used: nat, outcome: Outcome)
    requires ValidTree(tree) && Between(tree, start, maxBlock, moments, run, used)
    requires (used == |moments| && outcome == Running)
          || (used < |moments| && moments[used].rangeFails && outcome == Failed(Database))
    ensures Ends(tree, start, maxBlock, moments, run, used, End(outcome, None))
  {
  }

  /** Scans the blocks of one range. */
  method ScanRange(
    tree: Tree, wsc: WsClient, lookups: RescanKeys, start: nat, maxBlock: nat, ghost hi: nat, hashes: seq<Hash>,
    moments: seq<Moment>, scanned: seq<Block>, used: nat, ghost unspent0: set<OutPoint>, ghost queue0: seq<Ntfn>)
    returns (end: Option<End>, run: seq<Block>, at: nat)
    requires ValidTree(tree) && start + |scanned| <= hi <= maxBlock <= MAX_INT32 && used < |moments|
    requires forall k :: 0 <= k < |moments| ==> moments[k].tip in tree
    requires hashes != [] && hashes == HeightRange(tree, moments[used].tip, start + |scanned|, hi)
    requires Between(tree, start, maxBlock, moments, scanned, used)
    requires Tracks(wsc, lookups, unspent0, queue0, scanned)
    modifies wsc, lookups
    ensures Tracks(wsc, lookups, unspent0, queue0, run) && LinkedRun(tree, start, run)
    ensures run != [] ==> start + |run| <= maxBlock
    ensures end.None? ==> Between(tree, start, maxBlock, moments, run, at) && at > used
    ensures end.Some? ==> end.value.reg.None? && Ends(tree, start, maxBlock, moments, run, used, end.value)
  {
    HeightRangeLinked(tree, moments[used].tip, start + |scanned|, hi);
    var stop;
    stop, run, at := ScanHashList(
      tree, wsc, lookups, start, maxBlock, hashes, scanned, moments, used + 1, unspent0, queue0);
    if stop.Some? {
      StopIsCaused(tree, start, maxBlock, moments, scanned, used, hi, run, stop.value);
      return Some(End(stop.value, None)), run, at;
    }
    ChunkDone(tree, start, maxBlock, moments, scanned, used, hi, run, at);
    end := None;
  }

  /** The range was empty: the end of a bounded rescan, the hand-over if the run ends at the tip
      seen while the block manager is paused, or another round. */
  method FinishOrWait(
    tree: Tree, lookups: RescanKeys, start: nat, maxBlock: nat, moments: seq<Moment>, run: seq<Block>, used: nat)
    returns (end: Option<End>, at: nat)
    requires ValidTree(tree) && start + |run| < maxBlock <= MAX_INT32 && used < |moments|
    requires forall k :: 0 <= k < |moments| ==> moments[k].tip in tree
    requires Between(tree, start, maxBlock, moments, run, used)
    requires tree[moments[used].tip].height < start + |run| && !moments[used].rangeFails
    ensures end.None? ==> Between(tree, start, maxBlock, moments, run, at) && at > used && run != []
    ensures end.Some? ==> Ends(tree, start, maxBlock, moments, run, used, end.value)
    ensures end.Some? && end.value.reg.Some? ==> end.value.reg.value.unspent == lookups.unspent
    ensures maxBlock == MAX_INT32 && run == [] && used + 1 < |moments| ==> end.Some? && end.value.reg.Some?
  {
    at := used + 1;
    if maxBlock != MAX_INT32 {
      assert SomeTipBelow(tree, start + |run|, moments);
      BoundedEnd(tree, start, maxBlock, moments, run, used);
      return Some(End(Finished(LastHash(run)), None)), at;
    }
    if at == |moments| {
      return Some(End(Running, None)), at;
    }
    var now := moments[at];
    at := at + 1;
    if run == [] || LastHash(run) == Some(now.tip) {
      return Some(End(Finished(LastHash(run)), Some(Registration(now.tip, lookups.unspent)))), at;
    }
    Overtaken(tree, start, maxBlock, moments, run, used);
    end := None;
  }

  lemma BoundedEnd(tree: Tree, start: nat, maxBlock: nat, moments: seq<Moment>, run: seq<Block>, used: nat)
    requires ValidTree(tree) && Between(tree, start, maxBlock, moments, run, used) && used < |moments|
    requires start + |run| <= maxBlock
    requires moments[used].tip in tree && tree[moments[used].tip].height < start + |run|
    ensures Succeeds(tree, FirstTip(moments), start, maxBlock, moments) ==>
      AllScanned(tree, FirstTip(moments), start, maxBlock, run)
  {
    if Succeeds(tree, FirstTip(moments), start, maxBlock, moments) {
      OnChainAll(tree, FirstTip(moments), start, maxBlock, run);
    }
  }

  /** Only a moving chain makes the loop wait. */
  lemma Overtaken(tree: Tree, start: nat, maxBlock: nat, moments: seq<Moment>, run: seq<Block>, used: nat)
    requires ValidTree(tree) && Between(tree, start, maxBlock, moments, run, used) && run != []
    requires used + 1 < |moments| && moments[used].tip in tree && tree[moments[used].tip].height < start + |run|
    requires LastHash(run) != Some(moments[used + 1].tip)
    ensures !Succeeds(tree, FirstTip(moments), start, maxBlock, moments)
  {
    if Succeeds(tree, FirstTip(moments), start, maxBlock, moments) {
      OnChainToTip(tree, FirstTip(moments), start, run);
    }
  }

  lemma StopIsCaused(
    tree: Tree, start: nat, maxBlock: nat, moments: seq<Moment>, scanned: seq<Block>, used: nat, hi: nat,
    run: seq<Block>, stop: Outcome)
    requires ValidTree(tree) && used < |moments| && moments[used].tip in tree && start + |scanned| <= hi
    requires Between(tree, start, maxBlock, moments, scanned, used)
    requires
      var hashes := HeightRange(tree, moments[used].tip, start + |scanned|, hi);
      && hashes != []
      && (stop.Finished? ==> !AllFound(moments))
      && (stop == Failed(Database) ==> !NothingFails(moments))
      && (stop == Stopped ==> !Undisturbed(moments))
      && (stop == Failed(Reorganize) ==> !AllFound(moments) || !Continues(tree, scanned, hashes))
      && (AllFound(moments) && stop == Running ==> |moments| < used + 1 + |hashes|)
    ensures Caused(tree, start, maxBlock, moments, run, stop)
  {
    var tip := FirstTip(moments);
    if AllFound(moments) && Unmoved(moments, tip) {
      assert moments[used].tip == tip;
      OnChainContinues(tree, tip, start, scanned, hi);
      RangeFits(tree, tip, start + |scanned|, hi);
      assert stop.Failed? ==> stop.error.Database? || stop.error.Reorganize?;
    }
  }

  lemma RangeFits(tree: Tree, tip: Hash, lo: nat, hi: nat)
    requires ValidTree(tree) && tip in tree && lo <= hi
    ensures |HeightRange(tree, tip, lo, hi)| <= Left(tree, tip, lo)
  {
  }

  lemma ChunkDone(
    tree: Tree, start: nat, maxBlock: nat, moments: seq<Moment>, scanned: seq<Block>, used: nat, hi: nat,
    run: seq<Block>, at: nat)
    requires ValidTree(tree) && used < |moments| && moments[used].tip in tree && start + |scanned| <= hi
    requires FirstTip(moments) in tree && Between(tree, start, maxBlock, moments, scanned, used)
    requires HeightRange(tree, moments[used].tip, start + |scanned|, hi) != [] && run != []
    requires LinkedRun(tree, start, run) && start + |run| <= maxBlock && used < at <= |moments|
    requires AllFound(moments) ==>
      var hashes := HeightRange(tree, moments[used].tip, start + |scanned|, hi);
      Hashes(run) == Hashes(scanned) + hashes && at == used + 1 + |hashes|
    ensures Between(tree, start, maxBlock, moments, run, at)
  {
    var tip := FirstTip(moments);
    if AllFound(moments) && Unmoved(moments, tip) {
      OnChainExtended(tree, tip, start, scanned, hi, run);
    }
  }

  /** Nothing fails, nobody quits, the chain stays, and there is time enough. */
  predicate Succeeds(tree: Tree, tip: Hash, start: nat, maxBlock: nat, moments: seq<Moment>) {
    && NothingFails(moments) && Undisturbed(moments) && Unmoved(moments, tip)
    && start < maxBlock && tip in tree && Enough(tree, tip, start, moments, 0)
  }

  /** The client's queue has grown by a prefix of the notifications of the scanned blocks; as
      long as it accepts notifications, by all of them, and the lookup keys are those of the
      scanned blocks. */
  ghost predicate Tracks(
    wsc: WsClient, lookups: RescanKeys, unspent0: set<OutPoint>, queue0: seq<Ntfn>, run: seq<Block>)
    reads wsc, lookups
  {
    && queue0 <= wsc.queue <= queue0 + BlocksNtfns(lookups.addrs, unspent0, run)
    && (wsc.accepts > 0 ==>
          && lookups.unspent == AfterBlocks(lookups.addrs, unspent0, run)
          && wsc.queue == queue0 + BlocksNtfns(lookups.addrs, unspent0, run))
  }

  /** The inner loop: fetches and scans the blocks of one hash list, and restarts on a
      newer list when a block has gone missing.  `stop` is None when the list was
      finished and the outer loop goes on. */
  method ScanHashList(
    tree: Tree, wsc: WsClient, lookups: RescanKeys, start: nat, maxBlock: nat,
    hashes: seq<Hash>, scanned: seq<Block>, moments: seq<Moment>, at: nat,
    ghost unspent0: set<OutPoint>, ghost queue0: seq<Ntfn>)
    returns (stop: Option<Outcome>, run: seq<Block>, next: nat)
    requires ValidTree(tree) && maxBlock <= MAX_INT32 && at <= |moments|
    requires forall k :: 0 <= k < |moments| ==> moments[k].tip in tree
    requires LinkedRun(tree, start, scanned)
    requires LinkedHashes(tree, start + |scanned|, hashes) && hashes != []
    requires start + |scanned| + |hashes| <= maxBlock
    requires Tracks(wsc, lookups, unspent0, queue0, scanned)
    modifies wsc, lookups
    ensures LinkedRun(tree, start, run) && Tracks(wsc, lookups, unspent0, queue0, run)
    ensures start + |run| <= maxBlock && (stop.None? ==> run != [])
    ensures at < next <= |moments| || (next == at && stop.Some?)
    ensures stop.Some? ==> StopCause(tree, hashes, scanned, moments, at, run, stop.value)
    ensures AllFound(moments) && stop.None? ==> Hashes(run) == Hashes(scanned) + hashes && next == at + |hashes|
  {
    var place := Place(scanned, hashes, 0, at);
    assert Hashes(scanned) + hashes[..0] == Hashes(scanned);
    while place.i < |place.hashList|
      invariant InList(tree, start, maxBlock, hashes, scanned, moments, at, place)
      invariant Tracks(wsc, lookups, unspent0, queue0, place.run)
      decreases |moments| - place.next
    {
      ghost var before := place;
      stop, place := ScanStep(tree, wsc, lookups, start, maxBlock, moments, place, unspent0, queue0);
      if before.next < |moments| {
        StepKeeps(tree, start, maxBlock, hashes, scanned, moments, at, before, stop, place);
      }
      if stop.Some? {
        return stop, place.run, place.next;
      }
    }
    assert hashes[..|hashes|] == hashes;
    return None, place.run, place.next;
  }

  /** Why the inner loop stops. */
  ghost predicate StopCause(
    tree: Tree, hashes: seq<Hash>, scanned: seq<Block>, moments: seq<Moment>, at: nat, run: seq<Block>, stop: Outcome)
  {
    && (stop.Finished? ==> stop.last == LastHash(run) && !AllFound(moments))
    && (stop == Failed(Database) ==> !NothingFails(moments))
    && (stop == Stopped ==> !Undisturbed(moments))
    && (stop == Failed(Reorganize) ==> !AllFound(moments) || !Continues(tree, scanned, hashes))
    && (AllFound(moments) && stop == Running ==> |moments| < at + |hashes|)
  }

  /** The list goes on from the run, of which it already holds the last i blocks. */
  ghost predicate InRange(tree: Tree, start: nat, maxBlock: nat, moments: seq<Moment>, p: Place) {
    && p.i <= |p.hashList| && p.hashList != [] && p.next <= |moments|
    && |p.run| >= p.i && LinkedHashes(tree, start + |p.run| - p.i, p.hashList)
    && start + |p.run| - p.i + |p.hashList| <= maxBlock
    && LinkedRun(tree, start, p.run) && (p.i > 0 ==> LastHash(p.run) == Some(p.hashList[p.i - 1]))
  }

  /** What holds whenever the inner loop comes round. */
  ghost predicate InList(
    tree: Tree, start: nat, maxBlock: nat, hashes: seq<Hash>, scanned: seq<Block>, moments: seq<Moment>, at: nat,
    p: Place)
  {
    && InRange(tree, start, maxBlock, moments, p) && at <= p.next && (p.next > at || p.i < |p.hashList|)
    && (AllFound(moments) ==>
          && p.hashList == hashes && p.next == at + p.i && Hashes(p.run) == Hashes(scanned) + hashes[..p.i]
          && (p.i == 0 ==> p.run == scanned))
  }

  /** Where the inner loop stands: the list, the position in it, and the moments used. */
  datatype Place = Place(run: seq<Block>, hashList: seq<Hash>, i: nat, next: nat)

  /** What one moment does to the inner loop. */
  ghost predicate Stepped(
    tree: Tree, start: nat, maxBlock: nat, moments: seq<Moment>, before: Place, stop: Option<Outcome>, after: Place)
    requires ValidTree(tree) && before.next < |moments| && before.i < |before.hashList|
  {
    var now := moments[before.next];
    && before.next < after.next <= |moments|
    && match now.lookup
       case Broken => stop == Some(Failed(Database)) && after.run == before.run
       case NotFound => Restarted(tree, start, maxBlock, moments, before, stop, after)
       case Found =>
         && after.next == before.next + 1 && after.hashList == before.hashList && after.i == before.i + 1
         && Scanned(tree, now, before.run, before.hashList, before.i, stop, after.run)
  }

  /** The block is missing: the loop goes on with the current chain, or ends. */
  ghost predicate Restarted(
    tree: Tree, start: nat, maxBlock: nat, moments: seq<Moment>, before: Place, stop: Option<Outcome>, after: Place)
    requires ValidTree(tree)
  {
    && after.run == before.run && after.i == 0 && stop != Some(Stopped)
    && (stop.Some? && stop.value.Finished? ==> stop.value.last == LastHash(before.run))
    && (maxBlock != MAX_INT32 ==> stop == Some(Failed(Reorganize)))
    && (stop.None? ==>
          && after.hashList != [] && LinkedHashes(tree, start + |after.run|, after.hashList)
          && start + |after.run| + |after.hashList| <= maxBlock
          && before.next + 1 < |moments| && moments[before.next + 1].tip in tree
          && after.hashList == HeightRange(tree, moments[before.next + 1].tip, start + |after.run|, maxBlock))
    && (maxBlock == MAX_INT32 && start + |before.run| < maxBlock
        && Recovers(tree, start + |before.run|, maxBlock, LastHash(before.run), moments, before.next + 1) ==>
          stop == if tree[moments[before.next + 1].tip].height < start + |before.run|
                  then Some(Finished(LastHash(before.run))) else None)
  }

  /** The block was read: it is scanned unless it does not continue the run or the client quits. */
  ghost predicate Scanned(
    tree: Tree, now: Moment, before: seq<Block>, hashList: seq<Hash>, i: nat, stop: Option<Outcome>, run: seq<Block>)
    requires i < |hashList|
  {
    if i == 0 && !Continues(tree, before, hashList) then
      stop == Some(Failed(Reorganize)) && run == before
    else if now.quit then
      stop == Some(Stopped) && run == before
    else
      && hashList[i] in tree && run == before + [tree[hashList[i]]]
      && (stop == None || (stop == Some(Stopped) && now.tick))
  }

  /** One round of the inner loop. */
  method ScanStep(
    tree: Tree, wsc: WsClient, lookups: RescanKeys, start: nat, maxBlock: nat, moments: seq<Moment>, place: Place,
    ghost unspent0: set<OutPoint>, ghost queue0: seq<Ntfn>)
    returns (stop: Option<Outcome>, after: Place)
    requires ValidTree(tree) && maxBlock <= MAX_INT32
    requires forall k :: 0 <= k < |moments| ==> moments[k].tip in tree
    requires InRange(tree, start, maxBlock, moments, place) && place.i < |place.hashList|
    requires Tracks(wsc, lookups, unspent0, queue0, place.run)
    modifies wsc, lookups
    ensures Tracks(wsc, lookups, unspent0, queue0, after.run)
    ensures LinkedRun(tree, start, after.run) && start + |after.run| <= maxBlock
    ensures place.next == |moments| ==> stop == Some(Running) && after == place
    ensures place.next < |moments| ==> Stepped(tree, start, maxBlock, moments, place, stop, after)
  {
    if place.next == |moments| {
      return Some(Running), place;
    }
    var now := moments[place.next];
    if now.lookup == Broken {
      return Some(Failed(Database)), place.(next := place.next + 1);
    }
    if now.lookup == NotFound {
      stop, after := Restart(tree, start, maxBlock, moments, place);
      return;
    }
    var run;
    stop, run := ScanNext(tree, wsc, lookups, start, place.run, place.hashList, place.i, now, unspent0, queue0);
    after := Place(run, place.hashList, place.i + 1, place.next + 1);
  }

  /** Every step leads to another round or has its cause. */
  lemma StepKeeps(
    tree: Tree, start: nat, maxBlock: nat, hashes: seq<Hash>, scanned: seq<Block>, moments: seq<Moment>, at: nat,
    place: Place, stop: Option<Outcome>, after: Place)
    requires ValidTree(tree) && place.next < |moments| && place.i < |place.hashList|
    requires InList(tree, start, maxBlock, hashes, scanned, moments, at, place)
    requires LinkedRun(tree, start, after.run) && Stepped(tree, start, maxBlock, moments, place, stop, after)
    ensures stop.None? ==> InList(tree, start, maxBlock, hashes, scanned, moments, at, after)
    ensures stop.Some? ==> StopCause(tree, hashes, scanned, moments, at, after.run, stop.value)
  {
    var now := moments[place.next];
    if stop.None? && now.lookup.Found? {
      assert Hashes(after.run) == Hashes(place.run) + [place.hashList[place.i]];
      Appended(hashes, scanned, place.run, after.run, place.i, place.hashList);
    }
  }

  lemma Appended(
    hashes: seq<Hash>, scanned: seq<Block>, before: seq<Block>, run: seq<Block>, i: nat, hashList: seq<Hash>)
    requires i < |hashList| && Hashes(run) == Hashes(before) + [hashList[i]]
    ensures hashList == hashes && Hashes(before) == Hashes(scanned) + hashes[..i] ==>
      Hashes(run) == Hashes(scanned) + hashes[..i + 1]
  {
    if hashList == hashes {
      assert hashes[..i + 1] == hashes[..i] + [hashes[i]];
    }
  }

  /** A block has gone missing: a rescan through the tip goes on with the current chain if that
      continues the run. */
  method Restart(tree: Tree, start: nat, maxBlock: nat, moments: seq<Moment>, place: Place)
    returns (stop: Option<Outcome>, after: Place)
    requires ValidTree(tree) && maxBlock <= MAX_INT32 && place.next < |moments| && start + |place.run| <= maxBlock
    requires forall k :: 0 <= k < |moments| ==> moments[k].tip in tree
    ensures place.next < after.next <= |moments|
    ensures Restarted(tree, start, maxBlock, moments, place, stop, after)
  {
    var next := place.next + 1;
    if maxBlock != MAX_INT32 {
      return Some(Failed(Reorganize)), Place(place.run, [], 0, next);
    }
    var recovery;
    recovery, next := RecoverFromReorg(tree, start + |place.run|, maxBlock, LastHash(place.run), moments, next);
    if recovery.Recovered? && recovery.hashes != [] {
      return None, Place(place.run, recovery.hashes, 0, next);
    }
    stop := match recovery
      case RecoveryRunning => Some(Running)
      case RecoveryFailed(error) => Some(Failed(error))
      case Recovered(_) => Some(Finished(LastHash(place.run)));
    after := Place(place.run, [], 0, next);
  }

  /** Scans block i of a list, unless it does not continue the run or the client has quit. */
  method ScanNext(
    tree: Tree, wsc: WsClient, lookups: RescanKeys, start: nat, scanned: seq<Block>,
    hashList: seq<Hash>, i: nat, now: Moment, ghost unspent0: set<OutPoint>, ghost queue0: seq<Ntfn>)
    returns (stop: Option<Outcome>, run: seq<Block>)
    requires ValidTree(tree) && LinkedRun(tree, start, scanned) && Tracks(wsc, lookups, unspent0, queue0, scanned)
    requires i < |hashList| && i <= |scanned| && LinkedHashes(tree, start + |scanned| - i, hashList)
    requires i > 0 ==> LastHash(scanned) == Some(hashList[i - 1])
    modifies wsc, lookups
    ensures LinkedRun(tree, start, run) && Tracks(wsc, lookups, unspent0, queue0, run)
    ensures Scanned(tree, now, scanned, hashList, i, stop, run)
    ensures stop.None? && now.tick ==> wsc.progress == old(wsc.progress) + [hashList[i]]
    ensures stop.Some? || !now.tick ==> wsc.progress == old(wsc.progress)
  {
    NextBlock(tree, start, scanned, hashList, i);
    var blk := tree[hashList[i]];
    if i == 0 && scanned != [] && blk.prev != scanned[|scanned| - 1].hash {
      return Some(Failed(Reorganize)), scanned;
    }
    if now.quit {
      return Some(Stopped), scanned;
    }
    var ok;
    ok, run := ScanOne(tree, wsc, lookups, start, scanned, blk, now.tick, unspent0, queue0);
    stop := if ok then None else Some(Stopped);
  }

  /** Where block i of a list stands. */
  lemma NextBlock(tree: Tree, start: nat, scanned: seq<Block>, hashList: seq<Hash>, i: nat)
    requires ValidTree(tree) && i < |hashList| && i <= |scanned|
    requires LinkedHashes(tree, start + |scanned| - i, hashList)
    requires i > 0 ==> LastHash(scanned) == Some(hashList[i - 1])
    ensures hashList[i] in tree && tree[hashList[i]].hash == hashList[i]
    ensures tree[hashList[i]].height == start + |scanned|
    ensures i > 0 ==> tree[hashList[i]].prev == scanned[|scanned| - 1].hash
    ensures i == 0 ==>
      (Continues(tree, scanned, hashList) <==>
         scanned == [] || tree[hashList[i]].prev == scanned[|scanned| - 1].hash)
  {
  }

  /** Scans the next block of a run and reports progress on a tick.  `ok` is false when
      the client turned out to have quit. */
  method ScanOne(
    tree: Tree, wsc: WsClient, lookups: RescanKeys, start: nat, scanned: seq<Block>, blk: Block, tick: bool,
    ghost unspent0: set<OutPoint>, ghost queue0: seq<Ntfn>)
    returns (ok: bool, run: seq<Block>)
    requires LinkedRun(tree, start, scanned) && Tracks(wsc, lookups, unspent0, queue0, scanned)
    requires blk.hash in tree && tree[blk.hash] == blk && blk.height == start + |scanned|
    requires scanned != [] ==> blk.prev == scanned[|scanned| - 1].hash
    modifies wsc, lookups
    ensures run == scanned + [blk] && LinkedRun(tree, start, run)
    ensures Tracks(wsc, lookups, unspent0, queue0, run)
    ensures !ok ==> tick
    ensures wsc.progress == if tick && ok then old(wsc.progress) + [blk.hash] else old(wsc.progress)
  {
    LinkedRunExtend(tree, start, scanned, blk);
    TrackBlock(wsc, lookups, scanned, blk, unspent0, queue0);
    run := scanned + [blk];
    ok := true;
    if tick {
      ok := wsc.QueueProgress(blk.hash);
    }
  }

  method TrackBlock(wsc: WsClient, lookups: RescanKeys, ghost scanned: seq<Block>, blk: Block,
                    ghost unspent0: set<OutPoint>, ghost queue0: seq<Ntfn>)
    requires Tracks(wsc, lookups, unspent0, queue0, scanned)
    modifies wsc`queue, wsc`accepts, lookups
    ensures Tracks(wsc, lookups, unspent0, queue0, scanned + [blk])
  {
    ghost var addrs, queue, n := lookups.addrs, wsc.queue, wsc.accepts;
    ghost var all := TxsNtfns(addrs, lookups.unspent, blk.txs, blk.hash);
    RunExtend(addrs, unspent0, scanned, blk);
    RescanBlock.RescanBlock(wsc, lookups, blk);
    if n > 0 {
      PrefixAfterBlock(queue0, BlocksNtfns(addrs, unspent0, scanned), all, n, wsc.queue);
    }
  }

  /** A client that has been told everything so far and then accepts n more notifications. */
  lemma PrefixAfterBlock(queue0: seq<Ntfn>, before: seq<Ntfn>, more: seq<Ntfn>, n: nat, after: seq<Ntfn>)
    requires after == queue0 + before + if |more| <= n then more else more[..n]
    ensures queue0 <= after <= queue0 + (before + more)
    ensures |more| <= n ==> after == queue0 + (before + more)
  {
  }

  lemma LinkedRunExtend(tree: Tree, start: nat, run: seq<Block>, blk: Block)
    requires LinkedRun(tree, start, run)
    requires blk.hash in tree && tree[blk.hash] == blk && blk.height == start + |run|
    requires run != [] ==> blk.prev == run[|run| - 1].hash
    ensures LinkedRun(tree, start, run + [blk])
  {
  }

  lemma RunExtend(addrs: set<string>, unspent: set<OutPoint>, run: seq<Block>, blk: Block)
    ensures AfterBlocks(addrs, unspent, run + [blk]) == AfterTxs(addrs, AfterBlocks(addrs, unspent, run), blk.txs)
    ensures BlocksNtfns(addrs, unspent, run + [blk]) ==
      BlocksNtfns(addrs, unspent, run) + TxsNtfns(addrs, AfterBlocks(addrs, unspent, run), blk.txs, blk.hash)
  {
    assert (run + [blk])[..|run|] == run;
  }

  ghost predicate LinkedHashes(tree: Tree, lo: nat, hashes: seq<Hash>) {
    && (forall k :: 0 <= k < |hashes| ==> hashes[k] in tree && tree[hashes[k]].height == lo + k)
    && (forall k :: 0 < k < |hashes| ==> hashes[k - 1] == tree[hashes[k]].prev)
  }
}
