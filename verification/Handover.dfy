/** What a client is told before and after the hand-over from a rescan to live notifications.
    The rescan matches outputs by the printed form of an address and inputs by their script as
    well; the live code matches outputs by the encoded form and skips malformed scripts. */
module Handover {
  import opened Wire
  import opened Lists
  import opened WatchIndex
  import R = RescanBlock
  import N = Notifications

  /** The notifications of a rescan, as the live code would send them. */
  function AsLive(q: seq<R.Ntfn>): (r: seq<N.Ntfn>)
    ensures |r| == |q|
  {
    if q == [] then []
    else
      var last := q[|q| - 1];
      AsLive(q[..|q| - 1]) +
      [match last
       case Redeeming(tx, block) => N.Redeeming(tx, Some(block))
       case Recv(tx, block) => N.Recv(tx, Some(block))]
  }

  /** The client is registered for what the rescan ended with. */
  ghost predicate Handed(
    spent: Index<OutPoint>, addr: Index<string>, addrs: set<string>, unspent: set<OutPoint>, c: ClientId)
  {
    && (forall op :: Watches(spent, op, c) <==> op in unspent)
    && (forall a :: Watches(addr, a, c) <==> a in addrs)
  }

  predicate LivePaysWatched(addrs: set<string>, out: TxOut) {
    !out.malformed && exists a :: a in out.addrs && a.encoded in addrs
  }

  predicate LivePays(addrs: set<string>, tx: Tx) {
    exists i :: 0 <= i < |tx.outs| && LivePaysWatched(addrs, tx.outs[i])
  }

  function LiveCreated(addrs: set<string>, tx: Tx): set<OutPoint> {
    set i | 0 <= i < |tx.outs| && LivePaysWatched(addrs, tx.outs[i]) :: OutPointAt(tx, i)
  }

  predicate SpendsTracked(unspent: set<OutPoint>, ins: seq<TxIn>) {
    exists i :: 0 <= i < |ins| && ins[i].prev in unspent
  }

  /** An input is recognized by its script although no tracked outpoint is spent. */
  predicate ScriptOnly(addrs: set<string>, unspent: set<OutPoint>, tx: Tx) {
    R.Redeems(addrs, unspent, tx.ins) && !SpendsTracked(unspent, tx.ins)
  }

  /** Read off the inputs: the script of one is that of an address, and none spends what is tracked. */
  lemma ScriptOnlyIff(addrs: set<string>, unspent: set<OutPoint>, tx: Tx)
    ensures ScriptOnly(addrs, unspent, tx) <==>
      && (exists i, a :: 0 <= i < |tx.ins| && a in addrs && tx.ins[i].script == Some(a))
      && (forall op :: op in unspent ==> !Spends(tx, op))
    ensures SpendsTracked(unspent, tx.ins) ==> R.Redeems(addrs, unspent, tx.ins)
  {
    if i :| 0 <= i < |tx.ins| && tx.ins[i].prev in unspent {
      assert R.InputMatches(addrs, unspent, tx.ins[i]) && Spends(tx, tx.ins[i].prev);
    }
    if i, a :| 0 <= i < |tx.ins| && a in addrs && tx.ins[i].script == Some(a) {
      assert R.InputMatches(addrs, unspent, tx.ins[i]);
    }
    if op :| op in unspent && Spends(tx, op) {
      var i :| 0 <= i < |tx.ins| && tx.ins[i].prev == op;
      assert tx.ins[i].prev in unspent;
    }
  }

  /** Both ways of matching lead to the same notifications and the same tracked outpoints. */
  predicate SameStep(addrs: set<string>, unspent: set<OutPoint>, tx: Tx) {
    && !ScriptOnly(addrs, unspent, tx)
    && (R.Pays(addrs, tx) <==> LivePays(addrs, tx))
    && R.AfterTx(addrs, unspent, tx) == (unspent - Spent(tx.ins)) + LiveCreated(addrs, tx)
  }

  /** Every output is matched alike. */
  predicate OutputsAgree(addrs: set<string>, tx: Tx) {
    forall i :: 0 <= i < |tx.outs| ==> (R.PaysWatched(addrs, tx.outs[i]) <==> LivePaysWatched(addrs, tx.outs[i]))
  }

  // ---- The live side for one client ----

  lemma WatchesOutputIff(addr: Index<string>, addrs: set<string>, out: TxOut, c: ClientId)
    requires forall a :: Watches(addr, a, c) <==> a in addrs
    ensures N.WatchesOutput(addr, out, c) <==> LivePaysWatched(addrs, out)
  {
    if LivePaysWatched(addrs, out) {
      var a :| a in out.addrs && a.encoded in addrs;
      var j :| 0 <= j < |out.addrs| && out.addrs[j] == a;
      assert Watches(addr, out.addrs[j].encoded, c);
    }
    if N.WatchesOutput(addr, out, c) {
      var j :| 0 <= j < |out.addrs| && Watches(addr, out.addrs[j].encoded, c);
      assert out.addrs[j] in out.addrs && out.addrs[j].encoded in addrs;
    }
  }

  lemma PaidIff(addr: Index<string>, addrs: set<string>, tx: Tx, c: ClientId)
    requires forall a :: Watches(addr, a, c) <==> a in addrs
    ensures N.IsPaid(addr, tx, |tx.outs|, c) <==> LivePays(addrs, tx)
    ensures forall op :: N.Registers(addr, tx, |tx.outs|, op, c) <==> op in LiveCreated(addrs, tx)
  {
    forall i | 0 <= i < |tx.outs|
      ensures N.WatchesOutput(addr, tx.outs[i], c) <==> LivePaysWatched(addrs, tx.outs[i])
    {
      WatchesOutputIff(addr, addrs, tx.outs[i], c);
    }
  }

  // ---- One block, rescanned or live ----

  ghost predicate SameTold(
    spent: Index<OutPoint>, addr: Index<string>, addrs: set<string>, unspent: set<OutPoint>, block: Block, n: nat,
    c: ClientId)
    requires n <= |block.txs|
  {
    N.BlockNtfns(spent, addr, block, n, c) == AsLive(R.TxsNtfns(addrs, unspent, block.txs[..n], block.hash))
  }

  ghost predicate SameTracked(
    spent: Index<OutPoint>, addr: Index<string>, addrs: set<string>, unspent: set<OutPoint>, txs: seq<Tx>, n: nat,
    c: ClientId)
    requires n <= |txs|
  {
    forall op :: N.Watching(spent, addr, txs, n, op, c) <==> op in R.AfterTxs(addrs, unspent, txs[..n])
  }

  lemma RescanStep(addrs: set<string>, unspent: set<OutPoint>, txs: seq<Tx>, n: nat, block: Hash)
    requires n < |txs|
    ensures R.AfterTxs(addrs, unspent, txs[..n + 1]) == R.AfterTx(addrs, R.AfterTxs(addrs, unspent, txs[..n]), txs[n])
    ensures R.TxsNtfns(addrs, unspent, txs[..n + 1], block)
         == R.TxsNtfns(addrs, unspent, txs[..n], block)
            + R.TxNtfns(addrs, R.AfterTxs(addrs, unspent, txs[..n]), txs[n], block)
  {
    assert txs[..n + 1][..n] == txs[..n];
  }

  lemma {:induction false} AsLiveConcat(a: seq<R.Ntfn>, b: seq<R.Ntfn>)
    ensures AsLive(a + b) == AsLive(a) + AsLive(b)
    decreases |b|
  {
    if b == [] {
      assert a + b == a;
    } else {
      assert (a + b)[..|a + b| - 1] == a + b[..|b| - 1];
      AsLiveConcat(a, b[..|b| - 1]);
    }
  }

  lemma AsLiveTx(addrs: set<string>, unspent: set<OutPoint>, tx: Tx, block: Hash)
    ensures AsLive(R.TxNtfns(addrs, unspent, tx, block))
         == N.Told(tx, Some(block), R.Redeems(addrs, unspent, tx.ins), R.Pays(addrs, tx))
  {
    var first := if R.Redeems(addrs, unspent, tx.ins) then [R.Redeeming(tx, block)] else [];
    var second := if R.Pays(addrs, tx) then [R.Recv(tx, block)] else [];
    AsLiveConcat(first, second);
    assert AsLive([R.Redeeming(tx, block)]) == [N.Redeeming(tx, Some(block))];
    assert AsLive([R.Recv(tx, block)]) == [N.Recv(tx, Some(block))];
  }

  lemma ToldDeterminesFlags(tx: Tx, block: Option<Hash>, a: bool, b: bool, c: bool, d: bool)
    ensures N.Told(tx, block, a, b) == N.Told(tx, block, c, d) <==> a == c && b == d
  {
    var x, y := N.Told(tx, block, a, b), N.Told(tx, block, c, d);
    assert |x| == (if a then 1 else 0) + (if b then 1 else 0) && |y| == (if c then 1 else 0) + if d then 1 else 0;
    assert (a ==> x[0] == N.Redeeming(tx, block)) && (!a && b ==> x[0] == N.Recv(tx, block));
    assert (c ==> y[0] == N.Redeeming(tx, block)) && (!c && d ==> y[0] == N.Recv(tx, block));
  }

  /** What the live code tells about the next transaction. */
  lemma LiveStep(
    spent: Index<OutPoint>, addr: Index<string>, addrs: set<string>, unspent: set<OutPoint>, block: Block, n: nat,
    c: ClientId)
    requires n < |block.txs| && Handed(spent, addr, addrs, unspent, c)
    requires SameTracked(spent, addr, addrs, unspent, block.txs, n, c)
    ensures
      var tx, tracked := block.txs[n], R.AfterTxs(addrs, unspent, block.txs[..n]);
      && N.BlockNtfns(spent, addr, block, n + 1, c) == N.BlockNtfns(spent, addr, block, n, c)
           + N.Told(tx, Some(block.hash), SpendsTracked(tracked, tx.ins), LivePays(addrs, tx))
      && (forall op :: N.Watching(spent, addr, block.txs, n + 1, op, c) <==>
            op in (tracked - Spent(tx.ins)) + LiveCreated(addrs, tx))
  {
    var tx, tracked := block.txs[n], R.AfterTxs(addrs, unspent, block.txs[..n]);
    PaidIff(addr, addrs, tx, c);
    assert N.Redeems(spent, addr, block.txs, n, c) <==> SpendsTracked(tracked, tx.ins) by {
      if i :| 0 <= i < |tx.ins| && tx.ins[i].prev in tracked {
        assert N.Watching(spent, addr, block.txs, n, tx.ins[i].prev, c);
      }
      if i :| 0 <= i < |tx.ins| && N.Watching(spent, addr, block.txs, n, tx.ins[i].prev, c) {
        assert tx.ins[i].prev in tracked;
      }
    }
    AppendAssoc(N.BlockNtfns(spent, addr, block, n, c),
                if N.Redeems(spent, addr, block.txs, n, c) then [N.Redeeming(tx, Some(block.hash))] else [],
                if N.IsPaid(addr, tx, |tx.outs|, c) then [N.Recv(tx, Some(block.hash))] else []);
  }

  /** Up to a transaction both sides agree; they agree after it exactly when it is matched alike. */
  lemma AgreeStep(
    spent: Index<OutPoint>, addr: Index<string>, addrs: set<string>, unspent: set<OutPoint>, block: Block, n: nat,
    c: ClientId)
    requires n < |block.txs| && Handed(spent, addr, addrs, unspent, c)
    requires Agrees(spent, addr, addrs, unspent, block, n, c)
    ensures Agrees(spent, addr, addrs, unspent, block, n + 1, c)
       <==> SameStep(addrs, R.AfterTxs(addrs, unspent, block.txs[..n]), block.txs[n])
  {
    var tx, tracked := block.txs[n], R.AfterTxs(addrs, unspent, block.txs[..n]);
    LiveStep(spent, addr, addrs, unspent, block, n, c);
    RescanStep(addrs, unspent, block.txs, n, block.hash);
    var live, rescanned := (tracked - Spent(tx.ins)) + LiveCreated(addrs, tx), R.AfterTx(addrs, tracked, tx);
    assert SameTracked(spent, addr, addrs, unspent, block.txs, n + 1, c) <==> live == rescanned by {
      assert forall op :: N.Watching(spent, addr, block.txs, n + 1, op, c) <==> op in live;
    }
    ToldStepIff(spent, addr, addrs, unspent, block, n, c);
    ScriptOnlyIff(addrs, tracked, tx);
  }

  lemma ToldStepIff(
    spent: Index<OutPoint>, addr: Index<string>, addrs: set<string>, unspent: set<OutPoint>, block: Block, n: nat,
    c: ClientId)
    requires n < |block.txs| && Handed(spent, addr, addrs, unspent, c)
    requires Agrees(spent, addr, addrs, unspent, block, n, c)
    ensures
      var tx, tracked := block.txs[n], R.AfterTxs(addrs, unspent, block.txs[..n]);
      SameTold(spent, addr, addrs, unspent, block, n + 1, c) <==>
        && (SpendsTracked(tracked, tx.ins) <==> R.Redeems(addrs, tracked, tx.ins))
        && (LivePays(addrs, tx) <==> R.Pays(addrs, tx))
  {
    var tx, tracked := block.txs[n], R.AfterTxs(addrs, unspent, block.txs[..n]);
    var before := N.BlockNtfns(spent, addr, block, n, c);
    var live := N.Told(tx, Some(block.hash), SpendsTracked(tracked, tx.ins), LivePays(addrs, tx));
    var rescanned := N.Told(tx, Some(block.hash), R.Redeems(addrs, tracked, tx.ins), R.Pays(addrs, tx));
    assert N.BlockNtfns(spent, addr, block, n + 1, c) == before + live by {
      LiveStep(spent, addr, addrs, unspent, block, n, c);
    }
    assert AsLive(R.TxsNtfns(addrs, unspent, block.txs[..n + 1], block.hash)) == before + rescanned by {
      RescannedStep(addrs, unspent, block.txs, n, block.hash);
    }
    SameTail(before, live, rescanned);
    ToldDeterminesFlags(tx, Some(block.hash), SpendsTracked(tracked, tx.ins), LivePays(addrs, tx),
                        R.Redeems(addrs, tracked, tx.ins), R.Pays(addrs, tx));
  }

  /** What the rescan tells about the next transaction. */
  lemma RescannedStep(addrs: set<string>, unspent: set<OutPoint>, txs: seq<Tx>, n: nat, block: Hash)
    requires n < |txs|
    ensures
      var tx, tracked := txs[n], R.AfterTxs(addrs, unspent, txs[..n]);
      AsLive(R.TxsNtfns(addrs, unspent, txs[..n + 1], block)) == AsLive(R.TxsNtfns(addrs, unspent, txs[..n], block))
        + N.Told(tx, Some(block), R.Redeems(addrs, tracked, tx.ins), R.Pays(addrs, tx))
  {
    var tx, tracked := txs[n], R.AfterTxs(addrs, unspent, txs[..n]);
    RescanStep(addrs, unspent, txs, n, block);
    AsLiveConcat(R.TxsNtfns(addrs, unspent, txs[..n], block), R.TxNtfns(addrs, tracked, tx, block));
    AsLiveTx(addrs, tracked, tx, block);
  }

  ghost predicate AgreesThroughout(
    spent: Index<OutPoint>, addr: Index<string>, addrs: set<string>, unspent: set<OutPoint>, block: Block, n: nat,
    c: ClientId)
    requires n <= |block.txs|
  {
    forall k :: 0 <= k <= n ==> Agrees(spent, addr, addrs, unspent, block, k, c)
  }

  /** After n transactions both sides have told and track the same. */
  ghost predicate Agrees(
    spent: Index<OutPoint>, addr: Index<string>, addrs: set<string>, unspent: set<OutPoint>, block: Block, n: nat,
    c: ClientId)
    requires n <= |block.txs|
  {
    SameTracked(spent, addr, addrs, unspent, block.txs, n, c) && SameTold(spent, addr, addrs, unspent, block, n, c)
  }

  lemma ThroughoutStep(
    spent: Index<OutPoint>, addr: Index<string>, addrs: set<string>, unspent: set<OutPoint>, block: Block, n: nat,
    c: ClientId)
    requires n < |block.txs|
    ensures AgreesThroughout(spent, addr, addrs, unspent, block, n + 1, c)
       <==> && AgreesThroughout(spent, addr, addrs, unspent, block, n, c)
            && Agrees(spent, addr, addrs, unspent, block, n + 1, c)
  {
  }

  lemma AllSameStep(addrs: set<string>, unspent: set<OutPoint>, txs: seq<Tx>, n: nat)
    requires n < |txs|
    ensures AllSame(addrs, unspent, txs, n + 1)
       <==> AllSame(addrs, unspent, txs, n) && SameStep(addrs, R.AfterTxs(addrs, unspent, txs[..n]), txs[n])
  {
  }

  predicate AllSame(addrs: set<string>, unspent: set<OutPoint>, txs: seq<Tx>, n: nat)
    requires n <= |txs|
  {
    forall k :: 0 <= k < n ==> SameStep(addrs, R.AfterTxs(addrs, unspent, txs[..k]), txs[k])
  }

  lemma NothingYet(
    spent: Index<OutPoint>, addr: Index<string>, addrs: set<string>, unspent: set<OutPoint>, block: Block, c: ClientId)
    requires Handed(spent, addr, addrs, unspent, c)
    ensures Agrees(spent, addr, addrs, unspent, block, 0, c)
  {
    assert block.txs[..0] == [];
  }

  /** After the hand-over, the live code tells a client about a block, transaction by transaction,
      what rescanning the block would have told it, and watches what the rescan would have
      tracked, exactly when every transaction is matched alike. */
  lemma {:induction false} HandoverIff(
    spent: Index<OutPoint>, addr: Index<string>, addrs: set<string>, unspent: set<OutPoint>, block: Block, n: nat,
    c: ClientId)
    requires n <= |block.txs| && Handed(spent, addr, addrs, unspent, c)
    ensures AgreesThroughout(spent, addr, addrs, unspent, block, n, c) <==> AllSame(addrs, unspent, block.txs, n)
  {
    if n == 0 {
      NothingYet(spent, addr, addrs, unspent, block, c);
    } else {
      HandoverIff(spent, addr, addrs, unspent, block, n - 1, c);
      ThroughoutStep(spent, addr, addrs, unspent, block, n - 1, c);
      AllSameStep(addrs, unspent, block.txs, n - 1);
      if AgreesThroughout(spent, addr, addrs, unspent, block, n - 1, c) {
        assert Agrees(spent, addr, addrs, unspent, block, n - 1, c);
        AgreeStep(spent, addr, addrs, unspent, block, n - 1, c);
      }
    }
  }

  // ---- When outputs are matched alike ----

  lemma OutputsAgreeSame(addrs: set<string>, unspent: set<OutPoint>, tx: Tx)
    requires OutputsAgree(addrs, tx)
    ensures SameStep(addrs, unspent, tx) <==> !ScriptOnly(addrs, unspent, tx)
    ensures R.Created(addrs, tx, |tx.outs|) == LiveCreated(addrs, tx) && (R.Pays(addrs, tx) <==> LivePays(addrs, tx))
  {
  }

  predicate NoScriptOnly(addrs: set<string>, unspent: set<OutPoint>, txs: seq<Tx>, n: nat)
    requires n <= |txs|
  {
    forall k :: 0 <= k < n ==> !ScriptOnly(addrs, R.AfterTxs(addrs, unspent, txs[..k]), txs[k])
  }

  lemma NoScriptOnlyStep(addrs: set<string>, unspent: set<OutPoint>, txs: seq<Tx>, n: nat)
    requires n < |txs|
    ensures NoScriptOnly(addrs, unspent, txs, n + 1) <==>
      NoScriptOnly(addrs, unspent, txs, n) && !ScriptOnly(addrs, R.AfterTxs(addrs, unspent, txs[..n]), txs[n])
  {
  }

  /** Both sides always track the same outpoints. */
  lemma {:induction false} TrackedAlike(
    spent: Index<OutPoint>, addr: Index<string>, addrs: set<string>, unspent: set<OutPoint>, block: Block, n: nat,
    c: ClientId)
    requires n <= |block.txs| && Handed(spent, addr, addrs, unspent, c)
    requires forall k :: 0 <= k < |block.txs| ==> OutputsAgree(addrs, block.txs[k])
    ensures SameTracked(spent, addr, addrs, unspent, block.txs, n, c)
  {
    if n == 0 {
      NothingYet(spent, addr, addrs, unspent, block, c);
    } else {
      TrackedAlike(spent, addr, addrs, unspent, block, n - 1, c);
      LiveStep(spent, addr, addrs, unspent, block, n - 1, c);
      RescanStep(addrs, unspent, block.txs, n - 1, block.hash);
      OutputsAgreeSame(addrs, R.AfterTxs(addrs, unspent, block.txs[..n - 1]), block.txs[n - 1]);
    }
  }

  /** The live code tells no more than the rescan, and less when a script alone decides. */
  lemma {:induction false} LiveTellsLess(
    spent: Index<OutPoint>, addr: Index<string>, addrs: set<string>, unspent: set<OutPoint>, block: Block, n: nat,
    c: ClientId)
    requires n <= |block.txs| && Handed(spent, addr, addrs, unspent, c)
    requires forall k :: 0 <= k < |block.txs| ==> OutputsAgree(addrs, block.txs[k])
    ensures
      var live := |N.BlockNtfns(spent, addr, block, n, c)|;
      var rescanned := |R.TxsNtfns(addrs, unspent, block.txs[..n], block.hash)|;
      live <= rescanned && (!NoScriptOnly(addrs, unspent, block.txs, n) ==> live < rescanned)
  {
    if n > 0 {
      var m := n - 1;
      var tx, tracked := block.txs[m], R.AfterTxs(addrs, unspent, block.txs[..m]);
      LiveTellsLess(spent, addr, addrs, unspent, block, m, c);
      NoScriptOnlyStep(addrs, unspent, block.txs, m);
      TrackedAlike(spent, addr, addrs, unspent, block, m, c);
      LiveStep(spent, addr, addrs, unspent, block, m, c);
      RescannedStep(addrs, unspent, block.txs, m, block.hash);
      OutputsAgreeSame(addrs, tracked, tx);
      ScriptOnlyIff(addrs, tracked, tx);
      ToldLength(tx, Some(block.hash), SpendsTracked(tracked, tx.ins), LivePays(addrs, tx));
      ToldLength(tx, Some(block.hash), R.Redeems(addrs, tracked, tx.ins), R.Pays(addrs, tx));
    }
  }

  lemma ToldLength(tx: Tx, block: Option<Hash>, a: bool, b: bool)
    ensures |N.Told(tx, block, a, b)| == (if a then 1 else 0) + if b then 1 else 0
  {
  }

  /** When no output is matched differently, live and rescan tell the same about a block exactly
      when no transaction is recognized by a script alone. */
  lemma HandoverByScript(
    spent: Index<OutPoint>, addr: Index<string>, addrs: set<string>, unspent: set<OutPoint>, block: Block, c: ClientId)
    requires Handed(spent, addr, addrs, unspent, c)
    requires forall k :: 0 <= k < |block.txs| ==> OutputsAgree(addrs, block.txs[k])
    ensures SameTold(spent, addr, addrs, unspent, block, |block.txs|, c)
       <==> NoScriptOnly(addrs, unspent, block.txs, |block.txs|)
  {
    var n := |block.txs|;
    LiveTellsLess(spent, addr, addrs, unspent, block, n, c);
    if NoScriptOnly(addrs, unspent, block.txs, n) {
      forall k | 0 <= k < n
        ensures SameStep(addrs, R.AfterTxs(addrs, unspent, block.txs[..k]), block.txs[k])
      {
        OutputsAgreeSame(addrs, R.AfterTxs(addrs, unspent, block.txs[..k]), block.txs[k]);
      }
      HandoverIff(spent, addr, addrs, unspent, block, n, c);
      assert Agrees(spent, addr, addrs, unspent, block, n, c);
    }
  }

  /** Raw public keys print as themselves and encode as the address of their hash: a client that
      asked for the printed form is told of a payment by the rescan and not by the live code. */
  lemma PrintedKeyIsMissed(
    spent: Index<OutPoint>, addr: Index<string>, key: seq<bv8>, keyHash: nat, text: string, encoded: string,
    h: Hash, block: Hash, c: ClientId)
    requires text != encoded && Handed(spent, addr, {text}, {}, c)
    ensures
      var tx := Tx(h, [], [TxOut([PubKey(key, keyHash, text, encoded)], false)]);
      && R.TxsNtfns({text}, {}, [tx], block) == [R.Recv(tx, block)]
      && N.BlockNtfns(spent, addr, Block(block, ZERO_HASH, 0, [tx]), 1, c) == []
  {
    var tx := Tx(h, [], [TxOut([PubKey(key, keyHash, text, encoded)], false)]);
    var b := Block(block, ZERO_HASH, 0, [tx]);
    assert R.PaysWatched({text}, tx.outs[0]) by {
      assert tx.outs[0].addrs[0] in tx.outs[0].addrs;
    }
    NothingYet(spent, addr, {text}, {}, b, c);
    LiveStep(spent, addr, {text}, {}, b, 0, c);
    RescanStep({text}, {}, [tx], 0, block);
    assert [tx][..1] == [tx] && [tx][..0] == [];
  }

  /** A transaction recognized by the script of its input alone: the client that asked for the
      address is told of it by the rescan and not by the live code. */
  lemma ScriptIsMissed(
    spent: Index<OutPoint>, addr: Index<string>, a: string, op: OutPoint, h: Hash, block: Hash, c: ClientId)
    requires Handed(spent, addr, {a}, {}, c)
    ensures
      var tx := Tx(h, [TxIn(op, Some(a))], []);
      && ScriptOnly({a}, {}, tx)
      && R.TxsNtfns({a}, {}, [tx], block) == [R.Redeeming(tx, block)]
      && N.BlockNtfns(spent, addr, Block(block, ZERO_HASH, 0, [tx]), 1, c) == []
  {
    var tx := Tx(h, [TxIn(op, Some(a))], []);
    var b := Block(block, ZERO_HASH, 0, [tx]);
    assert tx.ins[0].script == Some(a) && a in {a};
    ScriptOnlyIff({a}, {}, tx);
    NothingYet(spent, addr, {a}, {}, b, c);
    LiveStep(spent, addr, {a}, {}, b, 0, c);
    RescanStep({a}, {}, [tx], 0, block);
    assert [tx][..1] == [tx] && [tx][..0] == [];
  }
}
