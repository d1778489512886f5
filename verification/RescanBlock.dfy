/** The legacy rescan of single blocks: the lookup keys a rescan carries from block to
    block and the notifications it queues for the client. */
module RescanBlock {
  import opened Wire

  datatype Ntfn =
    | Redeeming(tx: Tx, block: Hash)
    | Recv(tx: Tx, block: Hash)

  /** The client end of the notification queue.  `accepts` is how many more
      notifications the client takes before it disconnects. */
  class WsClient {
    var queue: seq<Ntfn>
    var progress: seq<Hash>
    var accepts: nat

    constructor (accepts: nat)
      ensures queue == [] && progress == [] && this.accepts == accepts
    {
      queue, progress, this.accepts := [], [], accepts;
    }

    /** False stands for ErrClientQuit. */
    method QueueNotification(n: Ntfn) returns (ok: bool)
      modifies this`queue, this`accepts
      ensures ok <==> old(accepts) > 0
      ensures ok ==> queue == old(queue) + [n] && accepts == old(accepts) - 1
      ensures !ok ==> queue == old(queue) && accepts == 0
    {
      ok := accepts > 0;
      if ok {
        queue, accepts := queue + [n], accepts - 1;
      }
    }

    method QueueProgress(h: Hash) returns (ok: bool)
      modifies this`progress, this`accepts
      ensures ok <==> old(accepts) > 0
      ensures ok ==> progress == old(progress) + [h] && accepts == old(accepts) - 1
      ensures !ok ==> progress == old(progress) && accepts == 0
    {
      ok := accepts > 0;
      if ok {
        progress, accepts := progress + [h], accepts - 1;
      }
    }
  }

  class RescanKeys {
    const addrs: set<string>
    var unspent: set<OutPoint>

    constructor (addrs: set<string>, unspent: set<OutPoint>)
      ensures this.addrs == addrs && this.unspent == unspent
    {
      this.addrs, this.unspent := addrs, unspent;
    }
  }

  // ---- What a rescan is meant to compute ----

  predicate PaysWatched(addrs: set<string>, out: TxOut) {
    exists a :: a in out.addrs && a.text in addrs
  }

  predicate Pays(addrs: set<string>, tx: Tx) {
    exists i :: 0 <= i < |tx.outs| && PaysWatched(addrs, tx.outs[i])
  }

  /** The outpoints of the first n outputs that pay a watched address. */
  function Created(addrs: set<string>, tx: Tx, n: nat): set<OutPoint>
    requires n <= |tx.outs|
  {
    set i | 0 <= i < n && PaysWatched(addrs, tx.outs[i]) :: OutPointAt(tx, i)
  }

  predicate InputMatches(addrs: set<string>, unspent: set<OutPoint>, txin: TxIn) {
    txin.prev in unspent || (txin.script.Some? && txin.script.value in addrs)
  }

  predicate Redeems(addrs: set<string>, unspent: set<OutPoint>, ins: seq<TxIn>) {
    exists i :: 0 <= i < |ins| && InputMatches(addrs, unspent, ins[i])
  }

  function AfterTx(addrs: set<string>, unspent: set<OutPoint>, tx: Tx): set<OutPoint> {
    (unspent - Spent(tx.ins)) + Created(addrs, tx, |tx.outs|)
  }

  function TxNtfns(addrs: set<string>, unspent: set<OutPoint>, tx: Tx, block: Hash): seq<Ntfn> {
    (if Redeems(addrs, unspent, tx.ins) then [Redeeming(tx, block)] else []) +
    (if Pays(addrs, tx) then [Recv(tx, block)] else [])
  }

  function AfterTxs(addrs: set<string>, unspent: set<OutPoint>, txs: seq<Tx>): set<OutPoint>
    decreases |txs|
  {
    if txs == [] then unspent
    else AfterTx(addrs, AfterTxs(addrs, unspent, txs[..|txs| - 1]), txs[|txs| - 1])
  }

  function TxsNtfns(addrs: set<string>, unspent: set<OutPoint>, txs: seq<Tx>, block: Hash): seq<Ntfn>
    decreases |txs|
  {
    if txs == [] then []
    else
      var init := txs[..|txs| - 1];
      TxsNtfns(addrs, unspent, init, block) + TxNtfns(addrs, AfterTxs(addrs, unspent, init), txs[|txs| - 1], block)
  }

  function AfterBlocks(addrs: set<string>, unspent: set<OutPoint>, blocks: seq<Block>): set<OutPoint>
    decreases |blocks|
  {
    if blocks == [] then unspent
    else AfterTxs(addrs, AfterBlocks(addrs, unspent, blocks[..|blocks| - 1]), blocks[|blocks| - 1].txs)
  }

  function BlocksNtfns(addrs: set<string>, unspent: set<OutPoint>, blocks: seq<Block>): seq<Ntfn>
    decreases |blocks|
  {
    if blocks == [] then []
    else
      var init := blocks[..|blocks| - 1];
      var last := blocks[|blocks| - 1];
      BlocksNtfns(addrs, unspent, init) + TxsNtfns(addrs, AfterBlocks(addrs, unspent, init), last.txs, last.hash)
  }

  // ---- The unspent set read as a history of events ----

  datatype Event = Create(op: OutPoint) | Spend(op: OutPoint)

  function SpendEvents(ins: seq<TxIn>): seq<Event> {
    if ins == [] then [] else SpendEvents(ins[..|ins| - 1]) + [Spend(ins[|ins| - 1].prev)]
  }

  function CreateEvents(addrs: set<string>, tx: Tx, n: nat): seq<Event>
    requires n <= |tx.outs|
  {
    if n == 0 then []
    else CreateEvents(addrs, tx, n - 1) +
         (if PaysWatched(addrs, tx.outs[n - 1]) then [Create(OutPointAt(tx, n - 1))] else [])
  }

  function TxsEvents(addrs: set<string>, txs: seq<Tx>): seq<Event> {
    if txs == [] then []
    else
      var tx := txs[|txs| - 1];
      TxsEvents(addrs, txs[..|txs| - 1]) + SpendEvents(tx.ins) + CreateEvents(addrs, tx, |tx.outs|)
  }

  function ChainEvents(addrs: set<string>, blocks: seq<Block>): seq<Event> {
    if blocks == [] then []
    else ChainEvents(addrs, blocks[..|blocks| - 1]) + TxsEvents(addrs, blocks[|blocks| - 1].txs)
  }

  /** Whether `op` is live after `events`: its latest event is a creation, or it has
      none and was live before. */
  predicate Live(before: bool, events: seq<Event>, op: OutPoint) {
    if events == [] then before
    else
      var e := events[|events| - 1];
      if e.op == op then e.Create? else Live(before, events[..|events| - 1], op)
  }

  lemma {:induction false} LiveConcat(before: bool, a: seq<Event>, b: seq<Event>, op: OutPoint)
    ensures Live(before, a + b, op) == Live(Live(before, a, op), b, op)
    decreases |b|
  {
    if b == [] {
      assert a + b == a;
    } else {
      assert (a + b)[..|a + b| - 1] == a + b[..|b| - 1];
      LiveConcat(before, a, b[..|b| - 1], op);
    }
  }

  /** Live, stated without recursion: the last position that mentions op decides. */
  lemma {:induction false} LiveIsLatestEvent(before: bool, events: seq<Event>, op: OutPoint)
    ensures Live(before, events, op) <==>
      || (before && forall k :: 0 <= k < |events| ==> events[k].op != op)
      || (exists k :: 0 <= k < |events| && events[k] == Create(op) &&
            forall j :: k < j < |events| ==> events[j].op != op)
  {
    if events != [] {
      var init := events[..|events| - 1];
      LiveIsLatestEvent(before, init, op);
      forall k | 0 <= k < |init| ensures init[k] == events[k] {}
      if events[|events| - 1].op != op {
        if k :| 0 <= k < |init| && init[k] == Create(op) && forall j :: k < j < |init| ==> init[j].op != op {
          assert events[k] == Create(op);
        }
        if k :| 0 <= k < |events| && events[k] == Create(op) && forall j :: k < j < |events| ==> events[j].op != op {
          assert init[k] == Create(op);
          assert forall j :: k < j < |init| ==> init[j].op != op;
        }
      }
    }
  }

  lemma {:induction false} LiveAfterSpends(before: bool, ins: seq<TxIn>, op: OutPoint)
    ensures Live(before, SpendEvents(ins), op) <==> before && op !in Spent(ins)
  {
    if ins != [] {
      var init := ins[..|ins| - 1];
      LiveAfterSpends(before, init, op);
      assert SpendEvents(ins)[..|SpendEvents(ins)| - 1] == SpendEvents(init);
      assert ins == init + [ins[|ins| - 1]];
    }
  }

  lemma {:induction false} LiveAfterCreates(before: bool, addrs: set<string>, tx: Tx, n: nat, op: OutPoint)
    requires n <= |tx.outs|
    ensures Live(before, CreateEvents(addrs, tx, n), op) <==> before || op in Created(addrs, tx, n)
  {
    if n > 0 {
      var last := if PaysWatched(addrs, tx.outs[n - 1]) then [Create(OutPointAt(tx, n - 1))] else [];
      LiveAfterCreates(before, addrs, tx, n - 1, op);
      LiveConcat(before, CreateEvents(addrs, tx, n - 1), last, op);
      CreatedExtend(addrs, tx, n - 1);
      assert last != [] ==> last[..0] == [];
    }
  }

  lemma CreatedExtend(addrs: set<string>, tx: Tx, n: nat)
    requires n < |tx.outs|
    ensures Created(addrs, tx, n + 1) ==
      Created(addrs, tx, n) + (if PaysWatched(addrs, tx.outs[n]) then {OutPointAt(tx, n)} else {})
  {
  }

  lemma {:induction false} TxsUnspentIsHistory(addrs: set<string>, unspent: set<OutPoint>, txs: seq<Tx>, op: OutPoint)
    ensures op in AfterTxs(addrs, unspent, txs) <==> Live(op in unspent, TxsEvents(addrs, txs), op)
    decreases |txs|
  {
    if txs != [] {
      var tx := txs[|txs| - 1];
      var init := txs[..|txs| - 1];
      TxsUnspentIsHistory(addrs, unspent, init, op);
      var b := Live(op in unspent, TxsEvents(addrs, init), op);
      LiveConcat(op in unspent, TxsEvents(addrs, init), SpendEvents(tx.ins), op);
      LiveAfterSpends(b, tx.ins, op);
      LiveConcat(op in unspent, TxsEvents(addrs, init) + SpendEvents(tx.ins), CreateEvents(addrs, tx, |tx.outs|), op);
      LiveAfterCreates(b && op !in Spent(tx.ins), addrs, tx, |tx.outs|, op);
    }
  }

  /** Rescanning any chain of blocks leaves exactly the outpoints whose latest event is
      a creation (being given at the start counts as one). */
  lemma {:induction false} UnspentIsLatestCreation(
    addrs: set<string>, unspent: set<OutPoint>, blocks: seq<Block>, op: OutPoint)
    ensures op in AfterBlocks(addrs, unspent, blocks) <==>
      var events := ChainEvents(addrs, blocks);
      || (op in unspent && forall k :: 0 <= k < |events| ==> events[k].op != op)
      || (exists k :: 0 <= k < |events| && events[k] == Create(op) &&
            forall j :: k < j < |events| ==> events[j].op != op)
  {
    ChainUnspentIsHistory(addrs, unspent, blocks, op);
    LiveIsLatestEvent(op in unspent, ChainEvents(addrs, blocks), op);
  }

  lemma {:induction false} ChainUnspentIsHistory(
    addrs: set<string>, unspent: set<OutPoint>, blocks: seq<Block>, op: OutPoint)
    ensures op in AfterBlocks(addrs, unspent, blocks) <==>
      Live(op in unspent, ChainEvents(addrs, blocks), op)
    decreases |blocks|
  {
    if blocks != [] {
      var init := blocks[..|blocks| - 1];
      var txs := blocks[|blocks| - 1].txs;
      ChainUnspentIsHistory(addrs, unspent, init, op);
      TxsUnspentIsHistory(addrs, AfterBlocks(addrs, unspent, init), txs, op);
      LiveConcat(op in unspent, ChainEvents(addrs, init), TxsEvents(addrs, txs), op);
    }
  }

  // ---- What is tracked and told, read off the transactions alone ----

  /** The outpoint is that of an output of `tx` that prints one of the addresses. */
  predicate Makes(addrs: set<string>, tx: Tx, op: OutPoint) {
    exists i, j ::
      && 0 <= i < |tx.outs| && 0 <= j < |tx.outs[i].addrs| && tx.outs[i].addrs[j].text in addrs
      && op == OutPoint(tx.hash, i % 0x1_0000_0000)
  }

  /** The last of the first n transactions to mention the outpoint made it, or none spent it and
      it was given. */
  predicate TrackedBefore(addrs: set<string>, unspent: set<OutPoint>, txs: seq<Tx>, n: nat, op: OutPoint)
    requires n <= |txs|
  {
    || (op in unspent && forall k :: 0 <= k < n ==> !Spends(txs[k], op))
    || (exists m :: 0 <= m < n && Makes(addrs, txs[m], op) && forall k :: m < k < n ==> !Spends(txs[k], op))
  }

  lemma TrackedAfterOne(addrs: set<string>, unspent: set<OutPoint>, tx: Tx, op: OutPoint)
    ensures op in AfterTx(addrs, unspent, tx) <==> (op in unspent && !Spends(tx, op)) || Makes(addrs, tx, op)
  {
    MakesIff(addrs, tx, op);
    SpentIff(tx, op);
  }

  lemma MakesIff(addrs: set<string>, tx: Tx, op: OutPoint)
    ensures op in Created(addrs, tx, |tx.outs|) <==> Makes(addrs, tx, op)
  {
    if op in Created(addrs, tx, |tx.outs|) {
      var i :| 0 <= i < |tx.outs| && PaysWatched(addrs, tx.outs[i]) && OutPointAt(tx, i) == op;
      var a :| a in tx.outs[i].addrs && a.text in addrs;
      var j :| 0 <= j < |tx.outs[i].addrs| && tx.outs[i].addrs[j] == a;
      assert tx.outs[i].addrs[j].text in addrs && op == OutPoint(tx.hash, i % 0x1_0000_0000);
    }
    if Makes(addrs, tx, op) {
      var i, j :| 0 <= i < |tx.outs| && 0 <= j < |tx.outs[i].addrs| && tx.outs[i].addrs[j].text in addrs
        && op == OutPoint(tx.hash, i % 0x1_0000_0000);
      assert tx.outs[i].addrs[j] in tx.outs[i].addrs && PaysWatched(addrs, tx.outs[i]);
      assert OutPointAt(tx, i) in Created(addrs, tx, |tx.outs|);
    }
  }

  /** What a rescan tracks when it comes to a transaction. */
  lemma {:induction false} TrackedIff(
    addrs: set<string>, unspent: set<OutPoint>, txs: seq<Tx>, n: nat, op: OutPoint)
    requires n <= |txs|
    ensures op in AfterTxs(addrs, unspent, txs[..n]) <==> TrackedBefore(addrs, unspent, txs, n, op)
  {
    if n > 0 {
      TrackedIff(addrs, unspent, txs, n - 1, op);
      assert txs[..n][..n - 1] == txs[..n - 1];
      TrackedAfterOne(addrs, AfterTxs(addrs, unspent, txs[..n - 1]), txs[n - 1], op);
      TrackedStep(addrs, unspent, txs, n - 1, op);
    }
  }

  lemma TrackedStep(addrs: set<string>, unspent: set<OutPoint>, txs: seq<Tx>, n: nat, op: OutPoint)
    requires n < |txs|
    ensures TrackedBefore(addrs, unspent, txs, n + 1, op) <==>
      (TrackedBefore(addrs, unspent, txs, n, op) && !Spends(txs[n], op)) || Makes(addrs, txs[n], op)
  {
  }

  /** Some input spends what is tracked there, or its script is that of one of the addresses. */
  predicate RedeemsAt(addrs: set<string>, unspent: set<OutPoint>, txs: seq<Tx>, n: nat)
    requires n < |txs|
  {
    exists i :: 0 <= i < |txs[n].ins| &&
      (TrackedBefore(addrs, unspent, txs, n, txs[n].ins[i].prev) || ScriptNames(addrs, txs[n].ins[i].script))
  }

  predicate ScriptNames(addrs: set<string>, script: Option<string>) {
    exists a :: a in addrs && script == Some(a)
  }

  predicate PrintsWatched(addrs: set<string>, tx: Tx) {
    exists i, j :: 0 <= i < |tx.outs| && 0 <= j < |tx.outs[i].addrs| && tx.outs[i].addrs[j].text in addrs
  }

  /** What a rescan tells about each transaction. */
  lemma ToldIff(addrs: set<string>, unspent: set<OutPoint>, txs: seq<Tx>, n: nat, block: Hash)
    requires n < |txs|
    ensures TxsNtfns(addrs, unspent, txs[..n + 1], block)
         == TxsNtfns(addrs, unspent, txs[..n], block)
            + ((if RedeemsAt(addrs, unspent, txs, n) then [Redeeming(txs[n], block)] else [])
               + (if PrintsWatched(addrs, txs[n]) then [Recv(txs[n], block)] else []))
  {
    assert txs[..n + 1][..n] == txs[..n];
    RedeemsIff(addrs, unspent, txs, n);
    PaysIff(addrs, txs[n]);
  }

  lemma RedeemsIff(addrs: set<string>, unspent: set<OutPoint>, txs: seq<Tx>, n: nat)
    requires n < |txs|
    ensures Redeems(addrs, AfterTxs(addrs, unspent, txs[..n]), txs[n].ins) <==> RedeemsAt(addrs, unspent, txs, n)
  {
    var ins, tracked := txs[n].ins, AfterTxs(addrs, unspent, txs[..n]);
    forall i | 0 <= i < |ins|
      ensures InputMatches(addrs, tracked, ins[i])
         <==> TrackedBefore(addrs, unspent, txs, n, ins[i].prev) || ScriptNames(addrs, ins[i].script)
    {
      TrackedIff(addrs, unspent, txs, n, ins[i].prev);
    }
  }

  lemma PaysIff(addrs: set<string>, tx: Tx)
    ensures Pays(addrs, tx) <==> PrintsWatched(addrs, tx)
  {
    if Pays(addrs, tx) {
      var i :| 0 <= i < |tx.outs| && PaysWatched(addrs, tx.outs[i]);
      var a :| a in tx.outs[i].addrs && a.text in addrs;
      var j :| 0 <= j < |tx.outs[i].addrs| && tx.outs[i].addrs[j] == a;
      assert tx.outs[i].addrs[j].text in addrs;
    }
    if PrintsWatched(addrs, tx) {
      var i, j :| 0 <= i < |tx.outs| && 0 <= j < |tx.outs[i].addrs| && tx.outs[i].addrs[j].text in addrs;
      assert tx.outs[i].addrs[j] in tx.outs[i].addrs && PaysWatched(addrs, tx.outs[i]);
    }
  }

  /** An output that pays a watched address is followed: the transaction that spends it next is
      told to the client. */
  lemma PaidThenSpent(
    addrs: set<string>, unspent: set<OutPoint>, txs: seq<Tx>, m: nat, i: nat, j: nat, n: nat, block: Hash)
    requires m < n < |txs| && i < |txs[m].outs| && i < 0x1_0000_0000
    requires j < |txs[m].outs[i].addrs| && txs[m].outs[i].addrs[j].text in addrs
    requires forall k :: m < k < n ==> !Spends(txs[k], OutPoint(txs[m].hash, i))
    requires Spends(txs[n], OutPoint(txs[m].hash, i))
    ensures OutPoint(txs[m].hash, i) in AfterTxs(addrs, unspent, txs[..n])
    ensures Redeeming(txs[n], block) in TxsNtfns(addrs, unspent, txs, block)
  {
    var op := OutPoint(txs[m].hash, i);
    assert Makes(addrs, txs[m], op);
    TrackedIff(addrs, unspent, txs, n, op);
    var k :| 0 <= k < |txs[n].ins| && txs[n].ins[k].prev == op;
    assert TrackedBefore(addrs, unspent, txs, n, txs[n].ins[k].prev);
    RedeemingIsTold(addrs, unspent, txs, n, block);
  }

  lemma RedeemingIsTold(addrs: set<string>, unspent: set<OutPoint>, txs: seq<Tx>, n: nat, block: Hash)
    requires n < |txs| && RedeemsAt(addrs, unspent, txs, n)
    ensures Redeeming(txs[n], block) in TxsNtfns(addrs, unspent, txs, block)
  {
    ToldIff(addrs, unspent, txs, n, block);
    var told := TxsNtfns(addrs, unspent, txs[..n + 1], block);
    assert told[|TxsNtfns(addrs, unspent, txs[..n], block)|] == Redeeming(txs[n], block);
    TxsNtfnsPrefix(addrs, unspent, txs, n + 1, block);
  }

  /** A payment at output 0 and its spend in the next transaction. */
  lemma PaymentAndSpend(a: Address, h: Hash, s: Hash, block: Hash)
    ensures
      var tx := Tx(h, [], [TxOut([a], false)]);
      var spend := Tx(s, [TxIn(OutPoint(h, 0), None)], []);
      TxsNtfns({a.text}, {}, [tx, spend], block) == [Recv(tx, block), Redeeming(spend, block)]
  {
    var tx := Tx(h, [], [TxOut([a], false)]);
    var spend := Tx(s, [TxIn(OutPoint(h, 0), None)], []);
    var txs := [tx, spend];
    assert txs[..0] == [] && txs[..1] == [tx] && txs[..2] == txs;
    ToldIff({a.text}, {}, txs, 0, block);
    ToldIff({a.text}, {}, txs, 1, block);
    assert tx.outs[0].addrs[0].text in {a.text} && Makes({a.text}, tx, OutPoint(h, 0));
    assert TrackedBefore({a.text}, {}, txs, 1, spend.ins[0].prev);
  }

  // ---- The rescan as the node runs it ----

  /** Scans the inputs of one transaction, forgetting spent outpoints and queueing one
      redeemingtx.  `stop` tells that the client quit. */
  method RescanInputs(wsc: WsClient, lookups: RescanKeys, blk: Block, tx: Tx) returns (stop: bool)
    modifies wsc`queue, wsc`accepts, lookups
    ensures !stop ==> lookups.unspent == old(lookups.unspent) - Spent(tx.ins)
    ensures stop <==> Redeems(lookups.addrs, old(lookups.unspent), tx.ins) && old(wsc.accepts) == 0
    ensures !stop && Redeems(lookups.addrs, old(lookups.unspent), tx.ins) ==>
      wsc.queue == old(wsc.queue) + [Redeeming(tx, blk.hash)] && wsc.accepts == old(wsc.accepts) - 1
    ensures stop || !Redeems(lookups.addrs, old(lookups.unspent), tx.ins) ==>
      wsc.queue == old(wsc.queue) && wsc.accepts == old(wsc.accepts)
  {
    var spentNotified := false;
    stop := false;
    ghost var unspent0 := lookups.unspent;
    for i := 0 to |tx.ins|
      invariant lookups.unspent == unspent0 - Spent(tx.ins[..i])
      invariant spentNotified <==> Redeems(lookups.addrs, unspent0, tx.ins[..i])
      invariant spentNotified ==>
        && old(wsc.accepts) > 0 && wsc.queue == old(wsc.queue) + [Redeeming(tx, blk.hash)]
        && wsc.accepts == old(wsc.accepts) - 1
      invariant !spentNotified ==> wsc.queue == old(wsc.queue) && wsc.accepts == old(wsc.accepts)
    {
      var txin := tx.ins[i];
      RedeemsExtend(lookups.addrs, unspent0, tx.ins, i);
      if txin.prev in lookups.unspent {
        lookups.unspent := lookups.unspent - {txin.prev};
        if spentNotified {
          continue;
        }
        var ok := wsc.QueueNotification(Redeeming(tx, blk.hash));
        if !ok {
          RedeemsMonotone(lookups.addrs, unspent0, tx.ins, i + 1);
          stop := true;
          return;
        }
        spentNotified := true;
      }
      if txin.script.Some? && txin.script.value in lookups.addrs {
        if spentNotified {
          continue;
        }
        var ok := wsc.QueueNotification(Redeeming(tx, blk.hash));
        if !ok {
          RedeemsMonotone(lookups.addrs, unspent0, tx.ins, i + 1);
          stop := true;
          return;
        }
        spentNotified := true;
      }
    }
    assert tx.ins[..|tx.ins|] == tx.ins;
  }

  lemma RedeemsExtend(addrs: set<string>, unspent: set<OutPoint>, ins: seq<TxIn>, i: nat)
    requires i < |ins|
    ensures Redeems(addrs, unspent, ins[..i + 1]) <==>
      Redeems(addrs, unspent, ins[..i]) || InputMatches(addrs, unspent, ins[i])
    ensures Spent(ins[..i + 1]) == Spent(ins[..i]) + {ins[i].prev}
    ensures ins[i].prev in unspent && ins[i].prev in Spent(ins[..i]) ==> Redeems(addrs, unspent, ins[..i])
  {
    var a, b := ins[..i], ins[..i + 1];
    assert b == a + [ins[i]];
    if Redeems(addrs, unspent, a) {
      var k :| 0 <= k < |a| && InputMatches(addrs, unspent, a[k]);
      assert InputMatches(addrs, unspent, b[k]);
    }
    if InputMatches(addrs, unspent, ins[i]) {
      assert InputMatches(addrs, unspent, b[i]);
    }
    if ins[i].prev in unspent && ins[i].prev in Spent(a) {
      var txin :| txin in a && txin.prev == ins[i].prev;
      var k :| 0 <= k < |a| && a[k] == txin;
      assert InputMatches(addrs, unspent, a[k]);
    }
  }

  lemma RedeemsMonotone(addrs: set<string>, unspent: set<OutPoint>, ins: seq<TxIn>, i: nat)
    requires i <= |ins| && Redeems(addrs, unspent, ins[..i])
    ensures Redeems(addrs, unspent, ins)
  {
    var k :| 0 <= k < i && InputMatches(addrs, unspent, ins[..i][k]);
    assert InputMatches(addrs, unspent, ins[k]);
  }

  /** Scans the outputs of one transaction, tracking every output that pays a watched
      address and queueing one recvtx. */
  method RescanOutputs(wsc: WsClient, lookups: RescanKeys, blk: Block, tx: Tx) returns (stop: bool)
    modifies wsc`queue, wsc`accepts, lookups
    ensures !stop ==> lookups.unspent == old(lookups.unspent) + Created(lookups.addrs, tx, |tx.outs|)
    ensures stop <==> Pays(lookups.addrs, tx) && old(wsc.accepts) == 0
    ensures !stop && Pays(lookups.addrs, tx) ==>
      wsc.queue == old(wsc.queue) + [Recv(tx, blk.hash)] && wsc.accepts == old(wsc.accepts) - 1
    ensures stop || !Pays(lookups.addrs, tx) ==>
      wsc.queue == old(wsc.queue) && wsc.accepts == old(wsc.accepts)
  {
    var recvNotified := false;
    stop := false;
    ghost var unspent0 := lookups.unspent;
    ghost var addrs := lookups.addrs;
    for i := 0 to |tx.outs|
      invariant lookups.unspent == unspent0 + Created(addrs, tx, i)
      invariant recvNotified <==> exists k :: 0 <= k < i && PaysWatched(addrs, tx.outs[k])
      invariant recvNotified ==>
        && old(wsc.accepts) > 0 && wsc.queue == old(wsc.queue) + [Recv(tx, blk.hash)]
        && wsc.accepts == old(wsc.accepts) - 1
      invariant !recvNotified ==> wsc.queue == old(wsc.queue) && wsc.accepts == old(wsc.accepts)
    {
      var out := tx.outs[i];
      ghost var before := recvNotified;
      ghost var matched := false;
      for j := 0 to |out.addrs|
        invariant matched <==> exists k :: 0 <= k < j && out.addrs[k].text in addrs
        invariant lookups.unspent == unspent0 + Created(addrs, tx, i) + (if matched then {OutPointAt(tx, i)} else {})
        invariant recvNotified <==> before || matched
        invariant recvNotified ==>
          && old(wsc.accepts) > 0 && wsc.queue == old(wsc.queue) + [Recv(tx, blk.hash)]
          && wsc.accepts == old(wsc.accepts) - 1
        invariant !recvNotified ==> wsc.queue == old(wsc.queue) && wsc.accepts == old(wsc.accepts)
      {
        if out.addrs[j].text !in lookups.addrs {
          continue;
        }
        lookups.unspent := lookups.unspent + {OutPointAt(tx, i)};
        matched := true;
        if recvNotified {
          continue;
        }
        var ok := wsc.QueueNotification(Recv(tx, blk.hash));
        if !ok {
          assert PaysWatched(addrs, out);
          stop := true;
          return;
        }
        recvNotified := true;
      }
      assert matched <==> PaysWatched(addrs, out);
      CreatedExtend(addrs, tx, i);
    }
  }

  /** What queueing `all` does to a client that accepts n more notifications. */
  ghost predicate Queued(before: seq<Ntfn>, n: nat, all: seq<Ntfn>, after: seq<Ntfn>, left: nat) {
    if |all| <= n then after == before + all && left == n - |all|
    else after == before + all[..n] && left == 0
  }

  method RescanTx(wsc: WsClient, lookups: RescanKeys, blk: Block, tx: Tx) returns (stop: bool)
    modifies wsc`queue, wsc`accepts, lookups
    ensures var all := TxNtfns(lookups.addrs, old(lookups.unspent), tx, blk.hash);
      && (stop <==> |all| > old(wsc.accepts))
      && Queued(old(wsc.queue), old(wsc.accepts), all, wsc.queue, wsc.accepts)
    ensures !stop ==> lookups.unspent == AfterTx(lookups.addrs, old(lookups.unspent), tx)
  {
    stop := RescanInputs(wsc, lookups, blk, tx);
    if !stop {
      stop := RescanOutputs(wsc, lookups, blk, tx);
    }
  }

  /** Rescans one block.  A client that stays connected gets, for every transaction in
      order, one redeemingtx if it redeems and one recvtx if it pays; a client that
      disconnects gets a prefix of that list. */
  method RescanBlock(wsc: WsClient, lookups: RescanKeys, blk: Block)
    modifies wsc`queue, wsc`accepts, lookups
    ensures var all := TxsNtfns(lookups.addrs, old(lookups.unspent), blk.txs, blk.hash);
      && Queued(old(wsc.queue), old(wsc.accepts), all, wsc.queue, wsc.accepts)
      && (|all| <= old(wsc.accepts) ==>
          lookups.unspent == AfterTxs(lookups.addrs, old(lookups.unspent), blk.txs))
  {
    ghost var unspent0, queue0, n := lookups.unspent, wsc.queue, wsc.accepts;
    ghost var addrs := lookups.addrs;
    ghost var done: seq<Ntfn> := [];
    for i := 0 to |blk.txs|
      invariant done == TxsNtfns(addrs, unspent0, blk.txs[..i], blk.hash)
      invariant |done| <= n && wsc.queue == queue0 + done && wsc.accepts == n - |done|
      invariant lookups.unspent == AfterTxs(addrs, unspent0, blk.txs[..i])
    {
      var tx := blk.txs[i];
      ghost var mine := TxNtfns(addrs, lookups.unspent, tx, blk.hash);
      assert blk.txs[..i + 1][..i] == blk.txs[..i];
      TxsNtfnsPrefix(addrs, unspent0, blk.txs, i + 1, blk.hash);
      var stop := RescanTx(wsc, lookups, blk, tx);
      if stop {
        QueuedPrefix(queue0, n, done, mine, TxsNtfns(addrs, unspent0, blk.txs, blk.hash));
        return;
      }
      done := done + mine;
    }
    assert blk.txs[..|blk.txs|] == blk.txs;
  }

  lemma QueuedPrefix(queue: seq<Ntfn>, n: nat, done: seq<Ntfn>, mine: seq<Ntfn>, all: seq<Ntfn>)
    requires |done| <= n < |done| + |mine| && done + mine <= all
    ensures queue + done + mine[..n - |done|] == queue + all[..n]
  {
  }

  lemma {:induction false} TxsNtfnsPrefix(
    addrs: set<string>, unspent: set<OutPoint>, txs: seq<Tx>, i: nat, block: Hash)
    requires i <= |txs|
    ensures TxsNtfns(addrs, unspent, txs[..i], block) <= TxsNtfns(addrs, unspent, txs, block)
    decreases |txs|
  {
    if i < |txs| {
      assert txs[..|txs| - 1][..i] == txs[..i];
      TxsNtfnsPrefix(addrs, unspent, txs[..|txs| - 1], i, block);
    } else {
      assert txs[..i] == txs;
    }
  }
}
