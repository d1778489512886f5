/** Transaction filters of websocket clients.  Two pieces of code decide which
    transactions of a block concern a client: the rescan of one filter and the live
    notification of all connected clients at once. */
module Filter {
  import opened Wire

  /** The addresses of a filter, kept in one set per kind of address. */
  datatype Keys = Keys(
    pubKeyHashes: set<nat>,
    scriptHashes: set<nat>,
    compressedPubKeys: set<seq<bv8>>,
    uncompressedPubKeys: set<seq<bv8>>,
    otherAddresses: set<string>)

  predicate Exists(keys: Keys, a: Address) {
    match a
    case PubKeyHash(h, _, _) => h in keys.pubKeyHashes
    case ScriptHash(h, _, _) => h in keys.scriptHashes
    case PubKey(key, h, _, encoded) =>
      if |key| == 33 then key in keys.compressedPubKeys || h in keys.pubKeyHashes
      else if |key| == 65 then key in keys.uncompressedPubKeys || h in keys.pubKeyHashes
      else encoded in keys.otherAddresses
    case OtherAddress(_, encoded) => encoded in keys.otherAddresses
  }

  /** Addresses that fall to the map of encoded addresses. */
  predicate Fallback(a: Address) {
    a.OtherAddress? || (a.PubKey? && |a.key| != 33 && |a.key| != 65)
  }

  /** Adding `a` makes the filter match `b`: b is the same address, or b is a raw public
      key whose hash is the added pay-to-pubkey-hash address. */
  predicate Covers(a: Address, b: Address) {
    if Fallback(a) then Fallback(b) && a.encoded == b.encoded
    else match a
    case PubKeyHash(h, _, _) => (b.PubKeyHash? && b.hash160 == h) || (b.PubKey? && !Fallback(b) && b.keyHash == h)
    case ScriptHash(h, _, _) => b.ScriptHash? && b.hash160 == h
    case PubKey(key, _, _, _) => b.PubKey? && b.key == key
    case OtherAddress(_, _) => false
  }

  class WsClientFilter {
    var keys: Keys
    var unspent: set<OutPoint>

    constructor ()
      ensures keys == Keys({}, {}, {}, {}, {}) && unspent == {}
    {
      keys, unspent := Keys({}, {}, {}, {}, {}), {};
    }

    method AddAddress(a: Address)
      modifies this`keys
      ensures forall b: Address :: Exists(keys, b) <==> Exists(old(keys), b) || Covers(a, b)
      ensures Exists(keys, a)
      ensures a.PubKeyHash? ==>
        forall key, text, encoded ::
          |key| == 33 || |key| == 65 ==> Exists(keys, PubKey(key, a.hash160, text, encoded))
    {
      match a {
        case PubKeyHash(h, _, _) =>
          keys := keys.(pubKeyHashes := keys.pubKeyHashes + {h});
        case ScriptHash(h, _, _) =>
          keys := keys.(scriptHashes := keys.scriptHashes + {h});
        case PubKey(key, _, _, encoded) =>
          if |key| == 33 {
            keys := keys.(compressedPubKeys := keys.compressedPubKeys + {key});
          } else if |key| == 65 {
            keys := keys.(uncompressedPubKeys := keys.uncompressedPubKeys + {key});
          } else {
            keys := keys.(otherAddresses := keys.otherAddresses + {encoded});
          }
        case OtherAddress(_, encoded) =>
          keys := keys.(otherAddresses := keys.otherAddresses + {encoded});
      }
    }

    /** Removing an address undoes adding it, except that a raw public key stays matched
        while the filter holds its hash, and that removing a pay-to-pubkey-hash address
        leaves the raw keys that were added on their own. */
    method RemoveAddress(a: Address)
      modifies this`keys
      ensures forall b: Address :: !Covers(a, b) ==> (Exists(keys, b) <==> Exists(old(keys), b))
      ensures Exists(keys, a) <==> a.PubKey? && !Fallback(a) && a.keyHash in old(keys).pubKeyHashes
      ensures forall b: Address :: Exists(keys, b) ==> Exists(old(keys), b)
    {
      match a {
        case PubKeyHash(h, _, _) =>
          keys := keys.(pubKeyHashes := keys.pubKeyHashes - {h});
        case ScriptHash(h, _, _) =>
          keys := keys.(scriptHashes := keys.scriptHashes - {h});
        case PubKey(key, _, _, encoded) =>
          if |key| == 33 {
            keys := keys.(compressedPubKeys := keys.compressedPubKeys - {key});
          } else if |key| == 65 {
            keys := keys.(uncompressedPubKeys := keys.uncompressedPubKeys - {key});
          } else {
            keys := keys.(otherAddresses := keys.otherAddresses - {encoded});
          }
        case OtherAddress(_, encoded) =>
          keys := keys.(otherAddresses := keys.otherAddresses - {encoded});
      }
    }
  }

  // ---- What the two implementations compute for one filter ----

  predicate OutputMatches(keys: Keys, out: TxOut) {
    !out.malformed && exists a :: a in out.addrs && Exists(keys, a)
  }

  predicate Pays(keys: Keys, tx: Tx) {
    exists i :: 0 <= i < |tx.outs| && OutputMatches(keys, tx.outs[i])
  }

  predicate SpendsFrom(unspent: set<OutPoint>, tx: Tx) {
    exists i :: 0 <= i < |tx.ins| && tx.ins[i].prev in unspent
  }

  /** The matching outputs among the first n. */
  function Paid(keys: Keys, tx: Tx, n: nat): set<OutPoint>
    requires n <= |tx.outs|
  {
    set i | 0 <= i < n && OutputMatches(keys, tx.outs[i]) :: OutPointAt(tx, i)
  }

  predicate IsCoinBase(tx: Tx) {
    |tx.ins| == 1 && tx.ins[0].prev == NULL_OUTPOINT
  }

  predicate RescanRelevant(keys: Keys, unspent: set<OutPoint>, tx: Tx) {
    (!IsCoinBase(tx) && SpendsFrom(unspent, tx)) || Pays(keys, tx)
  }

  predicate LiveRelevant(keys: Keys, unspent: set<OutPoint>, tx: Tx) {
    SpendsFrom(unspent, tx) || Pays(keys, tx)
  }

  /** The filter's outpoints after the first n transactions of a block. */
  function UnspentAfter(keys: Keys, unspent: set<OutPoint>, txs: seq<Tx>, n: nat): set<OutPoint>
    requires n <= |txs|
  {
    if n == 0 then unspent
    else UnspentAfter(keys, unspent, txs, n - 1) + Paid(keys, txs[n - 1], |txs[n - 1].outs|)
  }

  /** Positions of the relevant ones among the first n transactions, in block order. */
  function RescanPicks(keys: Keys, unspent: set<OutPoint>, txs: seq<Tx>, n: nat): (picks: seq<nat>)
    requires n <= |txs|
    ensures forall k :: 0 <= k < |picks| ==> picks[k] < n
  {
    if n == 0 then []
    else RescanPicks(keys, unspent, txs, n - 1) +
         (if RescanRelevant(keys, UnspentAfter(keys, unspent, txs, n - 1), txs[n - 1]) then [n - 1] else [])
  }

  function LivePicks(keys: Keys, unspent: set<OutPoint>, txs: seq<Tx>, n: nat): (picks: seq<nat>)
    requires n <= |txs|
    ensures forall k :: 0 <= k < |picks| ==> picks[k] < n
  {
    if n == 0 then []
    else LivePicks(keys, unspent, txs, n - 1) +
         (if LiveRelevant(keys, UnspentAfter(keys, unspent, txs, n - 1), txs[n - 1]) then [n - 1] else [])
  }

  function Select(txs: seq<Tx>, picks: seq<nat>): seq<Tx>
    requires forall k :: 0 <= k < |picks| ==> picks[k] < |txs|
  {
    seq(|picks|, k requires 0 <= k < |picks| => txs[picks[k]])
  }

  predicate Increasing(s: seq<nat>) {
    forall i, j :: 0 <= i < j < |s| ==> s[i] < s[j]
  }

  /** Picks are in block order. */
  lemma {:induction false} LivePicksInOrder(keys: Keys, unspent: set<OutPoint>, txs: seq<Tx>, n: nat)
    requires n <= |txs|
    ensures Increasing(LivePicks(keys, unspent, txs, n))
  {
    if n > 0 {
      LivePicksInOrder(keys, unspent, txs, n - 1);
      var init := LivePicks(keys, unspent, txs, n - 1);
      assert Increasing(init) && Increasing(init + [n - 1]) && Increasing(init + []);
    }
  }

  /** Every relevant transaction is picked, and nothing else is. */
  lemma {:induction false} LivePicksExactly(keys: Keys, unspent: set<OutPoint>, txs: seq<Tx>, n: nat, k: nat)
    requires n <= |txs|
    ensures k in LivePicks(keys, unspent, txs, n) <==>
      k < n && LiveRelevant(keys, UnspentAfter(keys, unspent, txs, k), txs[k])
  {
    if n > 0 {
      LivePicksExactly(keys, unspent, txs, n - 1, k);
    }
  }

  // ---- The picks, read off the transactions alone ----

  /** A well-formed output has an address that the filter holds. */
  predicate PaysAt(keys: Keys, tx: Tx, i: nat)
    requires i < |tx.outs|
  {
    !tx.outs[i].malformed && exists j :: 0 <= j < |tx.outs[i].addrs| && Exists(keys, tx.outs[i].addrs[j])
  }

  predicate Makes(keys: Keys, tx: Tx, op: OutPoint) {
    exists i :: 0 <= i < |tx.outs| && PaysAt(keys, tx, i) && op == OutPoint(tx.hash, i % 0x1_0000_0000)
  }

  /** The filter held the outpoint, or an earlier transaction made it; spent ones stay. */
  predicate HeldBefore(keys: Keys, unspent: set<OutPoint>, txs: seq<Tx>, n: nat, op: OutPoint)
    requires n <= |txs|
  {
    op in unspent || exists m :: 0 <= m < n && Makes(keys, txs[m], op)
  }

  lemma OutputMatchesIff(keys: Keys, tx: Tx, i: nat)
    requires i < |tx.outs|
    ensures OutputMatches(keys, tx.outs[i]) <==> PaysAt(keys, tx, i)
  {
    var out := tx.outs[i];
    if OutputMatches(keys, out) {
      var a :| a in out.addrs && Exists(keys, a);
      var j :| 0 <= j < |out.addrs| && out.addrs[j] == a;
    }
    if PaysAt(keys, tx, i) {
      var j :| 0 <= j < |out.addrs| && Exists(keys, out.addrs[j]);
      assert out.addrs[j] in out.addrs;
    }
  }

  lemma PaidIff(keys: Keys, tx: Tx, op: OutPoint)
    ensures op in Paid(keys, tx, |tx.outs|) <==> Makes(keys, tx, op)
    ensures Pays(keys, tx) <==> exists i :: 0 <= i < |tx.outs| && PaysAt(keys, tx, i)
  {
    forall i | 0 <= i < |tx.outs| ensures OutputMatches(keys, tx.outs[i]) <==> PaysAt(keys, tx, i) {
      OutputMatchesIff(keys, tx, i);
    }
    if op in Paid(keys, tx, |tx.outs|) {
      var i :| 0 <= i < |tx.outs| && OutputMatches(keys, tx.outs[i]) && OutPointAt(tx, i) == op;
      assert PaysAt(keys, tx, i) && op == OutPoint(tx.hash, i % 0x1_0000_0000);
    }
    if Makes(keys, tx, op) {
      var i :| 0 <= i < |tx.outs| && PaysAt(keys, tx, i) && op == OutPoint(tx.hash, i % 0x1_0000_0000);
      assert OutputMatches(keys, tx.outs[i]) && OutPointAt(tx, i) == op;
    }
  }

  /** What a filter holds when a transaction is looked at. */
  lemma {:induction false} HeldIff(keys: Keys, unspent: set<OutPoint>, txs: seq<Tx>, n: nat, op: OutPoint)
    requires n <= |txs|
    ensures op in UnspentAfter(keys, unspent, txs, n) <==> HeldBefore(keys, unspent, txs, n, op)
  {
    if n > 0 {
      HeldIff(keys, unspent, txs, n - 1, op);
      PaidIff(keys, txs[n - 1], op);
    }
  }

  /** An input spends what the filter holds there. */
  predicate SpendsHeld(keys: Keys, unspent: set<OutPoint>, txs: seq<Tx>, n: nat)
    requires n < |txs|
  {
    exists i :: 0 <= i < |txs[n].ins| && HeldBefore(keys, unspent, txs, n, txs[n].ins[i].prev)
  }

  lemma SpendsHeldIff(keys: Keys, unspent: set<OutPoint>, txs: seq<Tx>, n: nat)
    requires n < |txs|
    ensures SpendsFrom(UnspentAfter(keys, unspent, txs, n), txs[n]) <==> SpendsHeld(keys, unspent, txs, n)
  {
    forall i | 0 <= i < |txs[n].ins|
      ensures txs[n].ins[i].prev in UnspentAfter(keys, unspent, txs, n)
         <==> HeldBefore(keys, unspent, txs, n, txs[n].ins[i].prev)
    {
      HeldIff(keys, unspent, txs, n, txs[n].ins[i].prev);
    }
  }

  /** Which transactions are sent live: those that spend what the filter holds or pay it. */
  lemma LivePicksIff(keys: Keys, unspent: set<OutPoint>, txs: seq<Tx>, k: nat)
    ensures k in LivePicks(keys, unspent, txs, |txs|) <==>
      k < |txs| &&
      (SpendsHeld(keys, unspent, txs, k) || exists i :: 0 <= i < |txs[k].outs| && PaysAt(keys, txs[k], i))
  {
    LivePicksExactly(keys, unspent, txs, |txs|, k);
    if k < |txs| {
      SpendsHeldIff(keys, unspent, txs, k);
      PaidIff(keys, txs[k], NULL_OUTPOINT);
    }
  }

  /** Which transactions a rescan finds: the same, but a coinbase spends nothing. */
  lemma RescanPicksIff(keys: Keys, unspent: set<OutPoint>, txs: seq<Tx>, k: nat)
    ensures k in RescanPicks(keys, unspent, txs, |txs|) <==>
      k < |txs| &&
      (|| (SpendsHeld(keys, unspent, txs, k)
           && !(|txs[k].ins| == 1 && txs[k].ins[0].prev == OutPoint(Hash(0), 0xFFFF_FFFF)))
       || exists i :: 0 <= i < |txs[k].outs| && PaysAt(keys, txs[k], i))
  {
    RescanPicksExactly(keys, unspent, txs, |txs|, k);
    if k < |txs| {
      SpendsHeldIff(keys, unspent, txs, k);
      PaidIff(keys, txs[k], NULL_OUTPOINT);
    }
  }

  lemma {:induction false} RescanPicksExactly(keys: Keys, unspent: set<OutPoint>, txs: seq<Tx>, n: nat, k: nat)
    requires n <= |txs|
    ensures Increasing(RescanPicks(keys, unspent, txs, n))
    ensures k in RescanPicks(keys, unspent, txs, n) <==>
      k < n && RescanRelevant(keys, UnspentAfter(keys, unspent, txs, k), txs[k])
  {
    if n > 0 {
      RescanPicksExactly(keys, unspent, txs, n - 1, k);
      var init := RescanPicks(keys, unspent, txs, n - 1);
      assert Increasing(init) && Increasing(init + [n - 1]) && Increasing(init + []);
    }
  }

  /** An output that pays the filter is held from then on: every later transaction that spends
      it is sent, and found again by a rescan unless it is a coinbase. */
  lemma PaidThenSpent(keys: Keys, unspent: set<OutPoint>, txs: seq<Tx>, m: nat, i: nat, n: nat)
    requires m < n < |txs| && i < |txs[m].outs| && i < 0x1_0000_0000 && PaysAt(keys, txs[m], i)
    requires Spends(txs[n], OutPoint(txs[m].hash, i))
    ensures OutPoint(txs[m].hash, i) in UnspentAfter(keys, unspent, txs, n)
    ensures n in LivePicks(keys, unspent, txs, |txs|)
    ensures !IsCoinBase(txs[n]) ==> n in RescanPicks(keys, unspent, txs, |txs|)
  {
    var op := OutPoint(txs[m].hash, i);
    assert Makes(keys, txs[m], op);
    HeldIff(keys, unspent, txs, n, op);
    var k :| 0 <= k < |txs[n].ins| && txs[n].ins[k].prev == op;
    assert HeldBefore(keys, unspent, txs, n, txs[n].ins[k].prev);
    assert SpendsHeld(keys, unspent, txs, n);
    LivePicksIff(keys, unspent, txs, n);
    RescanPicksIff(keys, unspent, txs, n);
  }

  // ---- When the two agree ----

  /** Outputs fit the 32-bit index space with room to spare, as the block size limit
      guarantees; no output is then numbered like the null outpoint. */
  predicate Numbered(txs: seq<Tx>) {
    forall k :: 0 <= k < |txs| ==> |txs[k].outs| <= MAX_UINT32
  }

  lemma {:induction false} NullOutPointNeverAdded(keys: Keys, unspent: set<OutPoint>, txs: seq<Tx>, n: nat)
    requires n <= |txs| && Numbered(txs)
    ensures NULL_OUTPOINT in UnspentAfter(keys, unspent, txs, n) <==> NULL_OUTPOINT in unspent
  {
    if n > 0 {
      NullOutPointNeverAdded(keys, unspent, txs, n - 1);
      var tx := txs[n - 1];
      forall i | 0 <= i < |tx.outs| ensures OutPointAt(tx, i) != NULL_OUTPOINT {
      }
    }
  }

  lemma RelevanceGap(keys: Keys, unspent: set<OutPoint>, tx: Tx)
    ensures RescanRelevant(keys, unspent, tx) == LiveRelevant(keys, unspent, tx) <==>
      !(NULL_OUTPOINT in unspent && IsCoinBase(tx) && !Pays(keys, tx))
  {
    if IsCoinBase(tx) && NULL_OUTPOINT in unspent {
      assert tx.ins[0].prev in unspent;
    }
  }

  /** The transactions sent live and those found by rescanning the block are the same
      list exactly when the filter does not hold the null outpoint or every coinbase of
      the block pays the filter. */
  lemma FiltersAgreeIff(keys: Keys, unspent: set<OutPoint>, txs: seq<Tx>)
    requires Numbered(txs)
    ensures
      Select(txs, LivePicks(keys, unspent, txs, |txs|)) == Select(txs, RescanPicks(keys, unspent, txs, |txs|)) <==>
      NULL_OUTPOINT !in unspent || forall k :: 0 <= k < |txs| && IsCoinBase(txs[k]) ==> Pays(keys, txs[k])
  {
    PicksAgreeIff(keys, unspent, txs, |txs|);
  }

  /** A filter that holds the null outpoint and a block of one coinbase that pays nobody: the
      client is sent the coinbase, a rescan of the block does not find it. */
  lemma FiltersDisagree(h: Hash)
    ensures
      var nullOp := OutPoint(Hash(0), 0xFFFF_FFFF);
      var coinbase := Tx(h, [TxIn(nullOp, None)], []);
      var keys, unspent := Keys({}, {}, {}, {}, {}), {nullOp};
      && Numbered([coinbase])
      && Select([coinbase], LivePicks(keys, unspent, [coinbase], 1)) == [coinbase]
      && Select([coinbase], RescanPicks(keys, unspent, [coinbase], 1)) == []
  {
    var coinbase := Tx(h, [TxIn(NULL_OUTPOINT, None)], []);
    var keys, unspent := Keys({}, {}, {}, {}, {}), {NULL_OUTPOINT};
    assert coinbase.ins[0].prev in unspent;
    assert LivePicks(keys, unspent, [coinbase], 1) == [0];
  }

  lemma {:induction false} PicksAgreeIff(keys: Keys, unspent: set<OutPoint>, txs: seq<Tx>, n: nat)
    requires n <= |txs| && Numbered(txs)
    ensures LivePicks(keys, unspent, txs, n) == RescanPicks(keys, unspent, txs, n) <==>
      NULL_OUTPOINT !in unspent || forall k :: 0 <= k < n && IsCoinBase(txs[k]) ==> Pays(keys, txs[k])
    ensures |RescanPicks(keys, unspent, txs, n)| <= |LivePicks(keys, unspent, txs, n)|
    ensures |RescanPicks(keys, unspent, txs, n)| == |LivePicks(keys, unspent, txs, n)| ==>
      RescanPicks(keys, unspent, txs, n) == LivePicks(keys, unspent, txs, n)
  {
    if n > 0 {
      var tx := txs[n - 1];
      var u := UnspentAfter(keys, unspent, txs, n - 1);
      PicksAgreeIff(keys, unspent, txs, n - 1);
      NullOutPointNeverAdded(keys, unspent, txs, n - 1);
      RelevanceGap(keys, u, tx);
      var a, b := LivePicks(keys, unspent, txs, n - 1), RescanPicks(keys, unspent, txs, n - 1);
      var c := if LiveRelevant(keys, u, tx) then [n - 1] else [];
      var d := if RescanRelevant(keys, u, tx) then [n - 1] else [];
      LastPick(a, b, c, d, n - 1);
    }
  }

  /** Lists of positions below m, each followed by at most m itself, are equal exactly
      when both parts are. */
  lemma LastPick(a: seq<nat>, b: seq<nat>, c: seq<nat>, d: seq<nat>, m: nat)
    requires forall k :: 0 <= k < |a| ==> a[k] < m
    requires forall k :: 0 <= k < |b| ==> b[k] < m
    requires (c == [] || c == [m]) && (d == [] || d == [m])
    ensures a + c == b + d <==> a == b && c == d
  {
    assert c != [] ==> (a + c)[|a|] == m;
    assert d != [] ==> (b + d)[|b|] == m;
    if a + c == b + d {
      if c == d {
        assert a == (a + c)[..|a|] == (b + d)[..|b|] == b;
      }
    }
  }

  // ---- The rescan of one filter ----

  method RescanBlockFilter(filter: WsClientFilter, block: Block) returns (transactions: seq<Tx>)
    modifies filter`unspent
    ensures transactions == Select(block.txs, RescanPicks(filter.keys, old(filter.unspent), block.txs, |block.txs|))
    ensures filter.unspent == UnspentAfter(filter.keys, old(filter.unspent), block.txs, |block.txs|)
  {
    transactions := [];
    ghost var keys, unspent0 := filter.keys, filter.unspent;
    for n := 0 to |block.txs|
      invariant filter.keys == keys
      invariant filter.unspent == UnspentAfter(keys, unspent0, block.txs, n)
      invariant transactions == Select(block.txs, RescanPicks(keys, unspent0, block.txs, n))
    {
      var tx := block.txs[n];
      var added := false;
      ghost var before := transactions;
      if !IsCoinBase(tx) {
        for i := 0 to |tx.ins|
          invariant added <==> exists k :: 0 <= k < i && tx.ins[k].prev in filter.unspent
          invariant transactions == before + (if added then [tx] else [])
        {
          if tx.ins[i].prev !in filter.unspent {
            continue;
          }
          if !added {
            transactions, added := transactions + [tx], true;
          }
        }
      }
      assert added <==> !IsCoinBase(tx) && SpendsFrom(filter.unspent, tx);
      var hit := AddPaidOutputs(filter, tx);
      if hit && !added {
        transactions := transactions + [tx];
      }
      SelectExtend(block.txs, RescanPicks(keys, unspent0, block.txs, n), n);
    }
  }

  /** The output scan both implementations share in meaning: every matching output is
      added to the filter; the result says whether there was one. */
  method AddPaidOutputs(filter: WsClientFilter, tx: Tx) returns (hit: bool)
    modifies filter`unspent
    ensures filter.unspent == old(filter.unspent) + Paid(filter.keys, tx, |tx.outs|)
    ensures hit <==> Pays(filter.keys, tx)
  {
    hit := false;
    ghost var keys := filter.keys;
    for i := 0 to |tx.outs|
      invariant filter.keys == keys
      invariant filter.unspent == old(filter.unspent) + Paid(keys, tx, i)
      invariant hit <==> exists k :: 0 <= k < i && OutputMatches(keys, tx.outs[k])
    {
      var matched := AddPaidOutput(filter, tx, i);
      hit := hit || matched;
      PaidExtend(keys, tx, i);
    }
  }

  method AddPaidOutput(filter: WsClientFilter, tx: Tx, i: nat) returns (matched: bool)
    requires i < |tx.outs|
    modifies filter`unspent
    ensures matched <==> OutputMatches(filter.keys, tx.outs[i])
    ensures filter.unspent == old(filter.unspent) + (if matched then {OutPointAt(tx, i)} else {})
  {
    var out := tx.outs[i];
    matched := false;
    if out.malformed {
      return;
    }
    for j := 0 to |out.addrs|
      invariant matched <==> exists k :: 0 <= k < j && Exists(filter.keys, out.addrs[k])
      invariant filter.unspent == old(filter.unspent) + (if matched then {OutPointAt(tx, i)} else {})
    {
      if Exists(filter.keys, out.addrs[j]) {
        filter.unspent := filter.unspent + {OutPointAt(tx, i)};
        matched := true;
      }
    }
  }

  lemma PaidExtend(keys: Keys, tx: Tx, n: nat)
    requires n < |tx.outs|
    ensures Paid(keys, tx, n + 1) ==
      Paid(keys, tx, n) + (if OutputMatches(keys, tx.outs[n]) then {OutPointAt(tx, n)} else {})
  {
  }

  lemma SelectExtend(txs: seq<Tx>, picks: seq<nat>, n: nat)
    requires n < |txs| && forall k :: 0 <= k < |picks| ==> picks[k] < |txs|
    ensures Select(txs, picks + [n]) == Select(txs, picks) + [txs[n]]
    ensures Select(txs, picks + []) == Select(txs, picks)
  {
    assert picks + [] == picks;
  }

  // ---- The live notification of all clients ----

  /** The clients that have a filter loaded. */
  ghost predicate HasFilter(clients: map<ClientId, WsClientFilter?>, c: ClientId) {
    c in clients && clients[c] != null
  }

  ghost function Filters(clients: map<ClientId, WsClientFilter?>): set<WsClientFilter> {
    set c: ClientId | c in clients && clients[c] != null :: clients[c]
  }

  /** The clients concerned by `tx`.  Filters are updated with the matching outputs; two
      clients may even share one filter. */
  method SubscribedClients(tx: Tx, clients: map<ClientId, WsClientFilter?>) returns (subscribed: set<ClientId>)
    modifies Filters(clients)`unspent
    ensures forall c :: c in subscribed <==>
      HasFilter(clients, c) && LiveRelevant(clients[c].keys, old(clients[c].unspent), tx)
    ensures forall c :: HasFilter(clients, c) ==>
      clients[c].unspent == old(clients[c].unspent) + Paid(clients[c].keys, tx, |tx.outs|)
  {
    subscribed := {};
    for i := 0 to |tx.ins|
      invariant subscribed <= clients.Keys
      invariant forall c :: c in subscribed <==>
        HasFilter(clients, c) && exists k :: 0 <= k < i && tx.ins[k].prev in clients[c].unspent
      invariant forall c :: HasFilter(clients, c) ==> clients[c].unspent == old(clients[c].unspent)
    {
      subscribed := SubscribeInput(tx.ins[i], clients, subscribed);
    }
    ghost var spending := subscribed;
    for i := 0 to |tx.outs|
      invariant spending <= subscribed
      invariant forall c :: c in subscribed <==>
        c in spending || (HasFilter(clients, c) && exists k :: 0 <= k < i && OutputMatches(clients[c].keys, tx.outs[k]))
      invariant forall c :: HasFilter(clients, c) ==>
        clients[c].unspent == old(clients[c].unspent) + Paid(clients[c].keys, tx, i)
    {
      subscribed := SubscribeOutput(tx, i, clients, subscribed);
      forall c | HasFilter(clients, c)
        ensures clients[c].unspent == old(clients[c].unspent) + Paid(clients[c].keys, tx, i + 1) {
        PaidExtend(clients[c].keys, tx, i);
      }
    }
  }

  /** One input offered to every client. */
  method SubscribeInput(txin: TxIn, clients: map<ClientId, WsClientFilter?>, start: set<ClientId>)
    returns (subscribed: set<ClientId>)
    ensures forall c :: c in subscribed <==>
      c in start || (HasFilter(clients, c) && txin.prev in clients[c].unspent)
  {
    subscribed := start;
    var todo := clients.Keys;
    while todo != {}
      invariant todo <= clients.Keys
      invariant forall c :: c in subscribed <==>
        c in start || (HasFilter(clients, c) && c !in todo && txin.prev in clients[c].unspent)
      decreases todo
    {
      var c :| c in todo;
      todo := todo - {c};
      var filter := clients[c];
      if filter == null {
        continue;
      }
      if txin.prev in filter.unspent {
        subscribed := subscribed + {c};
      }
    }
  }

  /** One output offered to every client. */
  method SubscribeOutput(tx: Tx, i: nat, clients: map<ClientId, WsClientFilter?>, start: set<ClientId>)
    returns (subscribed: set<ClientId>)
    requires i < |tx.outs|
    modifies Filters(clients)`unspent
    ensures forall c :: c in subscribed <==>
      c in start || (HasFilter(clients, c) && OutputMatches(clients[c].keys, tx.outs[i]))
    ensures forall c :: HasFilter(clients, c) ==>
      clients[c].unspent == old(clients[c].unspent) +
        (if OutputMatches(clients[c].keys, tx.outs[i]) then {OutPointAt(tx, i)} else {})
  {
    subscribed := start;
    var todo := clients.Keys;
    ghost var done: set<WsClientFilter> := {};
    while todo != {}
      invariant todo <= clients.Keys
      invariant done <= Filters(clients)
      invariant forall c :: HasFilter(clients, c) && c !in todo ==> clients[c] in done
      invariant forall c :: c in subscribed <==>
        c in start || (HasFilter(clients, c) && c !in todo && OutputMatches(clients[c].keys, tx.outs[i]))
      invariant forall f :: f in Filters(clients) ==>
        f.unspent == old(f.unspent) +
          (if f in done && OutputMatches(f.keys, tx.outs[i]) then {OutPointAt(tx, i)} else {})
      decreases todo
    {
      var c :| c in todo;
      todo := todo - {c};
      var filter := clients[c];
      if filter == null {
        continue;
      }
      assert filter in Filters(clients);
      var matched := AddPaidOutput(filter, tx, i);
      if matched {
        subscribed := subscribed + {c};
      }
      done := done + {filter};
    }
  }

  /** Appends `tx` to the lists of the given clients, in whatever order they come. */
  method AppendTo(lists: map<ClientId, seq<Tx>>, chosen: set<ClientId>, tx: Tx) returns (longer: map<ClientId, seq<Tx>>)
    requires chosen <= lists.Keys
    ensures longer.Keys == lists.Keys
    ensures forall c :: c in lists ==> longer[c] == lists[c] + (if c in chosen then [tx] else [])
  {
    longer := lists;
    var todo := chosen;
    while todo != {}
      invariant todo <= chosen && longer.Keys == lists.Keys
      invariant forall c :: c in lists ==> longer[c] == lists[c] + (if c in chosen - todo then [tx] else [])
      decreases todo
    {
      var c :| c in todo;
      todo := todo - {c};
      longer := longer[c := longer[c] + [tx]];
    }
  }

  /** The transaction list sent to each client for a connected block: the live picks of
      its own filter, and nothing for a client without a filter. */
  method NotifyFilteredBlockConnected(clients: map<ClientId, WsClientFilter?>, block: Block)
    returns (lists: map<ClientId, seq<Tx>>)
    modifies Filters(clients)`unspent
    ensures lists.Keys == clients.Keys
    ensures forall c :: HasFilter(clients, c) ==>
      && lists[c] == Select(block.txs, LivePicks(clients[c].keys, old(clients[c].unspent), block.txs, |block.txs|))
      && clients[c].unspent == UnspentAfter(clients[c].keys, old(clients[c].unspent), block.txs, |block.txs|)
    ensures forall c :: c in clients && clients[c] == null ==> lists[c] == []
  {
    lists := map c | c in clients :: [];
    ghost var start := map c | c in clients && HasFilter(clients, c) :: clients[c].unspent;
    for n := 0 to |block.txs|
      invariant Progress(clients, start, block.txs, n, lists)
    {
      lists := NotifyFilteredTx(clients, block, n, lists, start);
    }
  }

  /** After n transactions every client has its own picks so far. */
  ghost predicate Progress(
    clients: map<ClientId, WsClientFilter?>, start: map<ClientId, set<OutPoint>>, txs: seq<Tx>, n: nat,
    lists: map<ClientId, seq<Tx>>)
    requires n <= |txs|
    reads Filters(clients)
  {
    && lists.Keys == clients.Keys
    && (forall c :: c in clients && clients[c] == null ==> lists[c] == [])
    && (forall c :: HasFilter(clients, c) ==>
      && c in start
      && lists[c] == Select(txs, LivePicks(clients[c].keys, start[c], txs, n))
      && clients[c].unspent == UnspentAfter(clients[c].keys, start[c], txs, n))
  }

  lemma PicksStep(keys: Keys, unspent: set<OutPoint>, txs: seq<Tx>, n: nat)
    requires n < |txs|
    ensures Select(txs, LivePicks(keys, unspent, txs, n + 1)) ==
      Select(txs, LivePicks(keys, unspent, txs, n)) +
        (if LiveRelevant(keys, UnspentAfter(keys, unspent, txs, n), txs[n]) then [txs[n]] else [])
    ensures UnspentAfter(keys, unspent, txs, n + 1) ==
      UnspentAfter(keys, unspent, txs, n) + Paid(keys, txs[n], |txs[n].outs|)
  {
    SelectExtend(txs, LivePicks(keys, unspent, txs, n), n);
  }

  method NotifyFilteredTx(
    clients: map<ClientId, WsClientFilter?>, block: Block, n: nat, lists: map<ClientId, seq<Tx>>,
    ghost start: map<ClientId, set<OutPoint>>)
    returns (longer: map<ClientId, seq<Tx>>)
    requires n < |block.txs| && Progress(clients, start, block.txs, n, lists)
    modifies Filters(clients)`unspent
    ensures Progress(clients, start, block.txs, n + 1, longer)
  {
    var subscribed := SubscribedClients(block.txs[n], clients);
    longer := AppendTo(lists, subscribed, block.txs[n]);
    forall c | HasFilter(clients, c)
      ensures longer[c] == Select(block.txs, LivePicks(clients[c].keys, start[c], block.txs, n + 1))
      ensures clients[c].unspent == UnspentAfter(clients[c].keys, start[c], block.txs, n + 1)
    {
      PicksStep(clients[c].keys, start[c], block.txs, n);
    }
  }
}
