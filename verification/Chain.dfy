/** The block tree and the main chain below a tip, as the chain library serves them. */
module Chain {
  import opened Wire

  type Tree = map<Hash, Block>

  /** Every stored block sits under its own hash and, above height zero, on a
      stored parent one height lower. */
  ghost predicate ValidTree(tree: Tree) {
    forall h :: h in tree ==>
      && tree[h].hash == h
      && h != ZERO_HASH
      && (tree[h].height > 0 ==> tree[h].prev in tree && tree[tree[h].prev].height + 1 == tree[h].height)
  }

  /** The hashes from height zero to `tip`. */
  function MainChain(tree: Tree, tip: Hash): (chain: seq<Hash>)
    requires ValidTree(tree) && tip in tree
    ensures |chain| == tree[tip].height + 1
    ensures chain[|chain| - 1] == tip
    decreases tree[tip].height
  {
    if tree[tip].height == 0 then [tip] else MainChain(tree, tree[tip].prev) + [tip]
  }

  lemma {:induction false} MainChainEntry(tree: Tree, tip: Hash, k: nat)
    requires ValidTree(tree) && tip in tree && k <= tree[tip].height
    ensures MainChain(tree, tip)[k] in tree
    ensures tree[MainChain(tree, tip)[k]].height == k
    decreases tree[tip].height
  {
    if k < tree[tip].height {
      MainChainEntry(tree, tree[tip].prev, k);
    }
  }

  /** The chain below an entry of a chain is a prefix of that chain: two chains that
      agree at one height agree at every lower height. */
  lemma {:induction false} MainChainPrefix(tree: Tree, tip: Hash, k: nat)
    requires ValidTree(tree) && tip in tree && k <= tree[tip].height
    ensures MainChain(tree, tip)[k] in tree
    ensures MainChain(tree, MainChain(tree, tip)[k]) == MainChain(tree, tip)[..k + 1]
    decreases tree[tip].height
  {
    if k < tree[tip].height {
      MainChainPrefix(tree, tree[tip].prev, k);
    }
  }

  lemma {:induction false} MainChainLinked(tree: Tree, tip: Hash, k: nat)
    requires ValidTree(tree) && tip in tree && k < tree[tip].height
    ensures MainChain(tree, tip)[k + 1] in tree
    ensures tree[MainChain(tree, tip)[k + 1]].prev == MainChain(tree, tip)[k]
    decreases tree[tip].height
  {
    MainChainEntry(tree, tip, k + 1);
    if k + 1 < tree[tip].height {
      MainChainLinked(tree, tree[tip].prev, k);
    }
  }

  /** The height-range lookup: hashes of the main chain from lo up to, not including,
      hi, limited to the tip. */
  function HeightRange(tree: Tree, tip: Hash, lo: nat, hi: nat): (hashes: seq<Hash>)
    requires ValidTree(tree) && tip in tree && lo <= hi
    ensures hashes != [] ==> lo + |hashes| <= hi && lo + |hashes| <= tree[tip].height + 1
  {
    var chain := MainChain(tree, tip);
    if lo >= |chain| then [] else chain[lo..if hi > |chain| then |chain| else hi]
  }

  /** What the rescan relies on: the range starts at height lo, climbs one height at a
      time and every hash is the child of the one before. */
  lemma HeightRangeLinked(tree: Tree, tip: Hash, lo: nat, hi: nat)
    requires ValidTree(tree) && tip in tree && lo <= hi
    ensures forall k :: 0 <= k < |HeightRange(tree, tip, lo, hi)| ==>
      HeightRange(tree, tip, lo, hi)[k] in tree && tree[HeightRange(tree, tip, lo, hi)[k]].height == lo + k
    ensures forall k :: 0 < k < |HeightRange(tree, tip, lo, hi)| ==>
      HeightRange(tree, tip, lo, hi)[k - 1] == tree[HeightRange(tree, tip, lo, hi)[k]].prev
  {
    var r := HeightRange(tree, tip, lo, hi);
    forall k | 0 <= k < |r| ensures r[k] in tree && tree[r[k]].height == lo + k {
      MainChainEntry(tree, tip, lo + k);
    }
    forall k | 0 < k < |r| ensures r[k - 1] == tree[r[k]].prev {
      MainChainLinked(tree, tip, lo + k - 1);
    }
  }
}
