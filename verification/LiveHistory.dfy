/** What the live notifications of a block come to for one client, read off the transactions
    alone: which outpoints it watches when a transaction is handled, and what it is told. */
module LiveHistory {
  import opened Wire
  import opened WatchIndex
  import N = Notifications

  /** The outpoint is that of a well-formed output of `tx` with an address that c watches. */
  predicate Makes(addr: Index<string>, tx: Tx, op: OutPoint, c: ClientId) {
    exists i, j ::
      && 0 <= i < |tx.outs| && !tx.outs[i].malformed && 0 <= j < |tx.outs[i].addrs|
      && Watches(addr, tx.outs[i].addrs[j].encoded, c) && op == OutPoint(tx.hash, i % 0x1_0000_0000)
  }

  /** The last of the first n transactions to mention the outpoint made it, or none spent it and
      c watched it before. */
  predicate WatchedBefore(
    spent: Index<OutPoint>, addr: Index<string>, txs: seq<Tx>, n: nat, op: OutPoint, c: ClientId)
    requires n <= |txs|
  {
    || (Watches(spent, op, c) && forall k :: 0 <= k < n ==> !Spends(txs[k], op))
    || (exists m :: 0 <= m < n && Makes(addr, txs[m], op, c) && forall k :: m < k < n ==> !Spends(txs[k], op))
  }

  lemma WatchedStep(
    spent: Index<OutPoint>, addr: Index<string>, txs: seq<Tx>, n: nat, op: OutPoint, c: ClientId)
    requires n < |txs|
    ensures WatchedBefore(spent, addr, txs, n + 1, op, c) <==>
      (WatchedBefore(spent, addr, txs, n, op, c) && !Spends(txs[n], op)) || Makes(addr, txs[n], op, c)
  {
  }

  lemma MakesIff(addr: Index<string>, tx: Tx, op: OutPoint, c: ClientId)
    ensures N.Registers(addr, tx, |tx.outs|, op, c) <==> Makes(addr, tx, op, c)
  {
    if N.Registers(addr, tx, |tx.outs|, op, c) {
      var i :| 0 <= i < |tx.outs| && N.WatchesOutput(addr, tx.outs[i], c) && OutPointAt(tx, i) == op;
      var j :| 0 <= j < |tx.outs[i].addrs| && Watches(addr, tx.outs[i].addrs[j].encoded, c);
      assert op == OutPoint(tx.hash, i % 0x1_0000_0000);
    }
    if Makes(addr, tx, op, c) {
      var i, j :| 0 <= i < |tx.outs| && !tx.outs[i].malformed && 0 <= j < |tx.outs[i].addrs|
        && Watches(addr, tx.outs[i].addrs[j].encoded, c) && op == OutPoint(tx.hash, i % 0x1_0000_0000);
      assert N.WatchesOutput(addr, tx.outs[i], c) && OutPointAt(tx, i) == op;
    }
  }

  /** What a client watches when a transaction of a block is handled. */
  lemma {:induction false} WatchedIff(
    spent: Index<OutPoint>, addr: Index<string>, txs: seq<Tx>, n: nat, op: OutPoint, c: ClientId)
    requires n <= |txs|
    ensures N.Watching(spent, addr, txs, n, op, c) <==> WatchedBefore(spent, addr, txs, n, op, c)
  {
    if n > 0 {
      WatchedIff(spent, addr, txs, n - 1, op, c);
      WatchedStep(spent, addr, txs, n - 1, op, c);
      MakesIff(addr, txs[n - 1], op, c);
      SpentIff(txs[n - 1], op);
    }
  }

  /** Some input spends what c watches there. */
  predicate RedeemsAt(spent: Index<OutPoint>, addr: Index<string>, txs: seq<Tx>, n: nat, c: ClientId)
    requires n < |txs|
  {
    exists i :: 0 <= i < |txs[n].ins| && WatchedBefore(spent, addr, txs, n, txs[n].ins[i].prev, c)
  }

  predicate PaysWatched(addr: Index<string>, tx: Tx, c: ClientId) {
    exists i, j ::
      && 0 <= i < |tx.outs| && !tx.outs[i].malformed && 0 <= j < |tx.outs[i].addrs|
      && Watches(addr, tx.outs[i].addrs[j].encoded, c)
  }

  /** What a client is told about each transaction of a connected block. */
  lemma ToldIff(spent: Index<OutPoint>, addr: Index<string>, block: Block, n: nat, c: ClientId)
    requires n < |block.txs|
    ensures N.BlockNtfns(spent, addr, block, n + 1, c)
         == N.BlockNtfns(spent, addr, block, n, c)
            + (if RedeemsAt(spent, addr, block.txs, n, c) then [N.Redeeming(block.txs[n], Some(block.hash))] else [])
            + (if PaysWatched(addr, block.txs[n], c) then [N.Recv(block.txs[n], Some(block.hash))] else [])
  {
    RedeemsIff(spent, addr, block.txs, n, c);
    PaysIff(addr, block.txs[n], c);
  }

  lemma RedeemsIff(spent: Index<OutPoint>, addr: Index<string>, txs: seq<Tx>, n: nat, c: ClientId)
    requires n < |txs|
    ensures N.Redeems(spent, addr, txs, n, c) <==> RedeemsAt(spent, addr, txs, n, c)
  {
    forall i | 0 <= i < |txs[n].ins|
      ensures N.Watching(spent, addr, txs, n, txs[n].ins[i].prev, c)
         <==> WatchedBefore(spent, addr, txs, n, txs[n].ins[i].prev, c)
    {
      WatchedIff(spent, addr, txs, n, txs[n].ins[i].prev, c);
    }
  }

  lemma PaysIff(addr: Index<string>, tx: Tx, c: ClientId)
    ensures N.IsPaid(addr, tx, |tx.outs|, c) <==> PaysWatched(addr, tx, c)
  {
    if N.IsPaid(addr, tx, |tx.outs|, c) {
      var i :| 0 <= i < |tx.outs| && N.WatchesOutput(addr, tx.outs[i], c);
      var j :| 0 <= j < |tx.outs[i].addrs| && Watches(addr, tx.outs[i].addrs[j].encoded, c);
    }
    if PaysWatched(addr, tx, c) {
      var i, j :| 0 <= i < |tx.outs| && !tx.outs[i].malformed && 0 <= j < |tx.outs[i].addrs|
        && Watches(addr, tx.outs[i].addrs[j].encoded, c);
      assert N.WatchesOutput(addr, tx.outs[i], c);
    }
  }

  lemma {:induction false} BlockNtfnsPrefix(
    spent: Index<OutPoint>, addr: Index<string>, block: Block, n: nat, m: nat, c: ClientId)
    requires n <= m <= |block.txs|
    ensures N.BlockNtfns(spent, addr, block, n, c) <= N.BlockNtfns(spent, addr, block, m, c)
    decreases m
  {
    if n < m {
      BlockNtfnsPrefix(spent, addr, block, n, m - 1, c);
    }
  }

  lemma RedeemingIsTold(spent: Index<OutPoint>, addr: Index<string>, block: Block, n: nat, c: ClientId)
    requires n < |block.txs| && RedeemsAt(spent, addr, block.txs, n, c)
    ensures N.Redeeming(block.txs[n], Some(block.hash)) in N.BlockNtfns(spent, addr, block, |block.txs|, c)
  {
    ToldIff(spent, addr, block, n, c);
    var told := N.BlockNtfns(spent, addr, block, n + 1, c);
    assert told[|N.BlockNtfns(spent, addr, block, n, c)|] == N.Redeeming(block.txs[n], Some(block.hash));
    BlockNtfnsPrefix(spent, addr, block, n + 1, |block.txs|, c);
  }

  /** An output that pays a watched address is followed: the transaction that spends it next, in
      the same block, is told to the client. */
  lemma PaidThenSpent(
    spent: Index<OutPoint>, addr: Index<string>, block: Block, m: nat, i: nat, j: nat, n: nat, c: ClientId)
    requires m < n < |block.txs| && i < |block.txs[m].outs| && i < 0x1_0000_0000
    requires !block.txs[m].outs[i].malformed && j < |block.txs[m].outs[i].addrs|
    requires Watches(addr, block.txs[m].outs[i].addrs[j].encoded, c)
    requires forall k :: m < k < n ==> !Spends(block.txs[k], OutPoint(block.txs[m].hash, i))
    requires Spends(block.txs[n], OutPoint(block.txs[m].hash, i))
    ensures N.Watching(spent, addr, block.txs, n, OutPoint(block.txs[m].hash, i), c)
    ensures N.Redeeming(block.txs[n], Some(block.hash)) in N.BlockNtfns(spent, addr, block, |block.txs|, c)
  {
    var op := OutPoint(block.txs[m].hash, i);
    assert Makes(addr, block.txs[m], op, c);
    WatchedIff(spent, addr, block.txs, n, op, c);
    var k :| 0 <= k < |block.txs[n].ins| && block.txs[n].ins[k].prev == op;
    assert WatchedBefore(spent, addr, block.txs, n, block.txs[n].ins[k].prev, c);
    RedeemingIsTold(spent, addr, block, n, c);
  }

  /** A payment at output 0 that stays unspent in its block is watched under index 0 afterwards. */
  lemma PaymentIsWatched(spent: Index<OutPoint>, addr: Index<string>, a: Address, h: Hash, b: Hash, c: ClientId)
    requires Watches(addr, a.encoded, c)
    ensures
      var tx := Tx(h, [], [TxOut([a], false)]);
      && N.BlockNtfns(spent, addr, Block(b, ZERO_HASH, 0, [tx]), 1, c) == [N.Recv(tx, Some(b))]
      && N.Watching(spent, addr, [tx], 1, OutPoint(h, 0), c)
  {
    var tx := Tx(h, [], [TxOut([a], false)]);
    var block := Block(b, ZERO_HASH, 0, [tx]);
    ToldIff(spent, addr, block, 0, c);
    WatchedIff(spent, addr, [tx], 1, OutPoint(h, 0), c);
    assert Watches(addr, tx.outs[0].addrs[0].encoded, c) && Makes(addr, tx, OutPoint(h, 0), c);
  }

  // ----- whole runs of messages -----

  type Indexes = (Index<OutPoint>, Index<string>)

  predicate AsksFor(msg: N.Msg, a: string, c: ClientId) {
    msg.RegisterAddr? && msg.c == c && a in msg.addrs
  }

  predicate Forgets(msg: N.Msg, a: string, c: ClientId) {
    msg == N.UnregisterAddr(c, a) || msg == N.UnregisterClient(c)
  }

  /** Some message asked for the address and none since took the client off it. */
  predicate AskedBefore(before: bool, msgs: seq<N.Msg>, n: nat, a: string, c: ClientId)
    requires n <= |msgs|
  {
    || (before && forall k :: 0 <= k < n ==> !Forgets(msgs[k], a, c))
    || (exists m :: 0 <= m < n && AsksFor(msgs[m], a, c) && forall k :: m < k < n ==> !Forgets(msgs[k], a, c))
  }

  lemma AskedStep(before: bool, msgs: seq<N.Msg>, n: nat, a: string, c: ClientId)
    requires n < |msgs|
    ensures AskedBefore(before, msgs, n + 1, a, c) <==>
      (AskedBefore(before, msgs, n, a, c) && !Forgets(msgs[n], a, c)) || AsksFor(msgs[n], a, c)
  {
  }

  /** Over any run, a client watches exactly the addresses it asked for and was not taken off. */
  lemma {:induction false} AddrRunIff(trace: seq<Indexes>, msgs: seq<N.Msg>, n: nat, a: string, c: ClientId)
    requires n <= |msgs| && N.IsTrace(trace, msgs, |msgs|)
    ensures Watches(trace[n].1, a, c) <==> AskedBefore(Watches(trace[0].1, a, c), msgs, n, a, c)
  {
    if n > 0 {
      AddrRunIff(trace, msgs, n - 1, a, c);
      AskedStep(Watches(trace[0].1, a, c), msgs, n - 1, a, c);
      assert N.IsStep(trace[n - 1], trace[n], msgs[n - 1]);
      assert Watches(trace[n].1, a, c) <==> N.AddrAfter(trace[n - 1].1, msgs[n - 1], a, c);
    }
  }

  /** The message leaves the outpoint watched whatever was before: the client asks for it, or a
      transaction pays the client there and nothing later in its block spends it. */
  predicate Follows(addr: Index<string>, msg: N.Msg, op: OutPoint, c: ClientId) {
    match msg
    case RegisterSpent(d, ops, _) => d == c && op in ops
    case TxAccepted(tx, _) => Makes(addr, tx, op, c)
    case BlockConnected(block, _) =>
      exists m :: 0 <= m < |block.txs| && Makes(addr, block.txs[m], op, c) &&
        forall k :: m < k < |block.txs| ==> !Spends(block.txs[k], op)
    case _ => false
  }

  /** The message ends an earlier watch: the client is taken off it, or a block spends it. */
  predicate Drops(msg: N.Msg, op: OutPoint, c: ClientId) {
    match msg
    case UnregisterSpent(d, gone) => d == c && gone == op
    case UnregisterClient(d) => d == c
    case BlockConnected(block, _) => exists k :: 0 <= k < |block.txs| && Spends(block.txs[k], op)
    case _ => false
  }

  predicate FollowedBefore(before: bool, trace: seq<Indexes>, msgs: seq<N.Msg>, n: nat, op: OutPoint, c: ClientId)
    requires n <= |msgs| < |trace|
  {
    || (before && forall k :: 0 <= k < n ==> !Drops(msgs[k], op, c))
    || (exists m :: 0 <= m < n && Follows(trace[m].1, msgs[m], op, c) &&
          forall k :: m < k < n ==> !Drops(msgs[k], op, c))
  }

  lemma FollowedStep(before: bool, trace: seq<Indexes>, msgs: seq<N.Msg>, n: nat, op: OutPoint, c: ClientId)
    requires n < |msgs| < |trace|
    ensures FollowedBefore(before, trace, msgs, n + 1, op, c) <==>
      (FollowedBefore(before, trace, msgs, n, op, c) && !Drops(msgs[n], op, c)) || Follows(trace[n].1, msgs[n], op, c)
  {
  }

  lemma SpentAfterIff(spent: Index<OutPoint>, addr: Index<string>, msg: N.Msg, op: OutPoint, c: ClientId)
    ensures N.SpentAfter(spent, addr, msg, op, c) <==>
      (Watches(spent, op, c) && !Drops(msg, op, c)) || Follows(addr, msg, op, c)
  {
    match msg
    case BlockConnected(block, _) => WatchedIff(spent, addr, block.txs, |block.txs|, op, c);
    case TxAccepted(tx, _) => MakesIff(addr, tx, op, c);
    case _ =>
  }

  /** Over any run, a client watches exactly the outpoints it asked for, or was paid at, and that
      no block has spent since and it was not taken off since. */
  lemma {:induction false} SpentRunIff(trace: seq<Indexes>, msgs: seq<N.Msg>, n: nat, op: OutPoint, c: ClientId)
    requires n <= |msgs| && N.IsTrace(trace, msgs, |msgs|)
    ensures Watches(trace[n].0, op, c) <==> FollowedBefore(Watches(trace[0].0, op, c), trace, msgs, n, op, c)
  {
    if n > 0 {
      SpentRunIff(trace, msgs, n - 1, op, c);
      FollowedStep(Watches(trace[0].0, op, c), trace, msgs, n - 1, op, c);
      assert N.IsStep(trace[n - 1], trace[n], msgs[n - 1]);
      SpentAfterIff(trace[n - 1].0, trace[n - 1].1, msgs[n - 1], op, c);
      assert Watches(trace[n].0, op, c) <==> N.SpentAfter(trace[n - 1].0, trace[n - 1].1, msgs[n - 1], op, c);
    }
  }

  /** What each message tells, apart from memory pool spends: a block, transaction by transaction;
      an accepted transaction, to those it pays; nothing else. */
  lemma MessageToldIff(spent: Index<OutPoint>, addr: Index<string>, msg: N.Msg, c: ClientId)
    ensures msg.TxAccepted? ==>
      N.MsgNtfns(spent, addr, msg, c) == if PaysWatched(addr, msg.tx, c) then [N.Recv(msg.tx, None)] else []
    ensures !msg.TxAccepted? && !msg.BlockConnected? ==> N.MsgNtfns(spent, addr, msg, c) == []
    ensures msg.BlockConnected? ==>
      N.MsgNtfns(spent, addr, msg, c) == N.BlockNtfns(spent, addr, msg.block, |msg.block.txs|, c)
  {
    if msg.TxAccepted? {
      PaysIff(addr, msg.tx, c);
    }
  }
}
