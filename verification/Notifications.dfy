/** The notification manager: who watches which outpoints and addresses, and what they
    are told when transactions arrive. */
module Notifications {
  import opened Wire
  import opened Lists
  import opened WatchIndex

  /** A notification; `block` is None for a transaction seen in the memory pool. */
  datatype Ntfn =
    | Redeeming(tx: Tx, block: Option<Hash>)
    | Recv(tx: Tx, block: Option<Hash>)

  /** The memory pool's answer to "who spends this outpoint". */
  type Pool = map<OutPoint, Tx>

  /** The pool's contract: the transaction found for an outpoint spends it, and
      transactions are told apart by their hashes. */
  ghost predicate ValidPool(pool: Pool) {
    && (forall op :: op in pool ==> op in Spent(pool[op].ins))
    && (forall a, b :: a in pool && b in pool && pool[a].hash == pool[b].hash ==> pool[a] == pool[b])
  }

  // ---- What the manager is meant to do, on the plain relations ----

  /** Client c watches an outpoint spent by one of these inputs. */
  predicate WatchesInput(spent: Index<OutPoint>, ins: seq<TxIn>, c: ClientId) {
    exists i :: 0 <= i < |ins| && Watches(spent, ins[i].prev, c)
  }

  /** Client c watches an address of this output. */
  predicate WatchesOutput(addr: Index<string>, out: TxOut, c: ClientId) {
    !out.malformed && WatchesWithinOutput(addr, out, |out.addrs|, c)
  }

  predicate WatchesWithinOutput(addr: Index<string>, out: TxOut, n: nat, c: ClientId)
    requires n <= |out.addrs|
  {
    exists j :: 0 <= j < n && Watches(addr, out.addrs[j].encoded, c)
  }

  predicate IsPaid(addr: Index<string>, tx: Tx, n: nat, c: ClientId)
    requires n <= |tx.outs|
  {
    exists i :: 0 <= i < n && WatchesOutput(addr, tx.outs[i], c)
  }

  /** Among the first n outputs of tx, `op` pays an address that c watches. */
  predicate Registers(addr: Index<string>, tx: Tx, n: nat, op: OutPoint, c: ClientId)
    requires n <= |tx.outs|
  {
    exists i :: 0 <= i < n && WatchesOutput(addr, tx.outs[i], c) && OutPointAt(tx, i) == op
  }

  /** Client c watches `op` after the first n transactions of a block: spent watches go,
      then paid outputs are watched. */
  ghost predicate Watching(
    spent: Index<OutPoint>, addr: Index<string>, txs: seq<Tx>, n: nat, op: OutPoint, c: ClientId)
    requires n <= |txs|
  {
    if n == 0 then Watches(spent, op, c)
    else
      var tx := txs[n - 1];
      || (Watching(spent, addr, txs, n - 1, op, c) && op !in Spent(tx.ins))
      || Registers(addr, tx, |tx.outs|, op, c)
  }

  ghost predicate Redeems(spent: Index<OutPoint>, addr: Index<string>, txs: seq<Tx>, n: nat, c: ClientId)
    requires n < |txs|
  {
    exists i :: 0 <= i < |txs[n].ins| && Watching(spent, addr, txs, n, txs[n].ins[i].prev, c)
  }

  /** What client c is told about the first n transactions of a block. */
  ghost function BlockNtfns(
    spent: Index<OutPoint>, addr: Index<string>, block: Block, n: nat, c: ClientId): seq<Ntfn>
    requires n <= |block.txs|
  {
    if n == 0 then []
    else
      var tx := block.txs[n - 1];
      BlockNtfns(spent, addr, block, n - 1, c) +
      (if Redeems(spent, addr, block.txs, n - 1, c) then [Redeeming(tx, Some(block.hash))] else []) +
      (if IsPaid(addr, tx, |tx.outs|, c) then [Recv(tx, Some(block.hash))] else [])
  }

  /** Notifications about memory pool spends, which also arise while a block is handled. */
  predicate IsMempoolSpend(n: Ntfn) {
    n.Redeeming? && n.block.None?
  }

  /** A queue without the memory pool spends. */
  function Plain(q: seq<Ntfn>): seq<Ntfn> {
    if q == [] then []
    else Plain(q[..|q| - 1]) + (if IsMempoolSpend(q[|q| - 1]) then [] else [q[|q| - 1]])
  }

  /** The memory pool spends a queue tells of, in order. */
  function SpendList(q: seq<Ntfn>): seq<Tx> {
    if q == [] then []
    else SpendList(q[..|q| - 1]) + (if IsMempoolSpend(q[|q| - 1]) then [q[|q| - 1].tx] else [])
  }

  /** The two parts of a queue hold everything that was told, each its own kind. */
  lemma {:induction false} TwoParts(q: seq<Ntfn>, n: Ntfn, tx: Tx)
    ensures |Plain(q)| + |SpendList(q)| == |q|
    ensures n in Plain(q) <==> n in q && !(n.Redeeming? && n.block == None)
    ensures tx in SpendList(q) <==> Redeeming(tx, None) in q
  {
    if q != [] {
      TwoParts(q[..|q| - 1], n, tx);
      assert q == q[..|q| - 1] + [q[|q| - 1]];
    }
  }

  /** Client c watches one of these inputs, or was registered for it by a visit. */
  ghost predicate WatchesThen(
    spent: Index<OutPoint>, visits: seq<(OutPoint, ClientId)>, ins: seq<TxIn>, c: ClientId)
  {
    exists i :: 0 <= i < |ins| && (Watches(spent, ins[i].prev, c) || (ins[i].prev, c) in visits)
  }

  /** A visit registers a client for a paid output, and everybody who then watches an input of
      a memory pool spend of that output is told of it.  What client c is told during some
      visits: one visit more may tell it the same spend once more. */
  ghost function VisitSpends(
    spent: Index<OutPoint>, pool: Pool, visits: seq<(OutPoint, ClientId)>, c: ClientId): seq<Tx>
  {
    if visits == [] then []
    else
      var op := visits[|visits| - 1].0;
      VisitSpends(spent, pool, visits[..|visits| - 1], c) +
      if op in pool && WatchesThen(spent, visits, pool[op].ins, c) then [pool[op]] else []
  }

  /** How often a client was visited for an outpoint. */
  ghost function Times(visits: seq<(OutPoint, ClientId)>, op: OutPoint, c: ClientId): nat {
    if visits == [] then 0
    else Times(visits[..|visits| - 1], op, c) + if visits[|visits| - 1] == (op, c) then 1 else 0
  }

  /** How many of the first n addresses of an output client c watches. */
  function PathsWithin(addr: Index<string>, out: TxOut, n: nat, c: ClientId): nat
    requires n <= |out.addrs|
  {
    if n == 0 then 0
    else PathsWithin(addr, out, n - 1, c) + if Watches(addr, out.addrs[n - 1].encoded, c) then 1 else 0
  }

  /** How often the first n outputs of a transaction pay `op` to an address client c watches. */
  function Paths(addr: Index<string>, tx: Tx, n: nat, op: OutPoint, c: ClientId): nat
    requires n <= |tx.outs|
  {
    if n == 0 then 0
    else
      var out := tx.outs[n - 1];
      Paths(addr, tx, n - 1, op, c) +
      if op == OutPointAt(tx, n - 1) && !out.malformed then PathsWithin(addr, out, |out.addrs|, c) else 0
  }

  /** How many visits were for one of these outpoints. */
  ghost function VisitsTo(visits: seq<(OutPoint, ClientId)>, ops: set<OutPoint>): nat {
    if visits == [] then 0
    else VisitsTo(visits[..|visits| - 1], ops) + if visits[|visits| - 1].0 in ops then 1 else 0
  }

  /** How many watches the first n addresses of an output meet. */
  function PayeesWithin(addr: Index<string>, out: TxOut, n: nat): nat
    requires n <= |out.addrs|
  {
    if n == 0 then 0 else PayeesWithin(addr, out, n - 1) + |Watchers(addr, out.addrs[n - 1].encoded)|
  }

  /** How many watches those of the first n outputs meet that have one of these outpoints. */
  function Payees(addr: Index<string>, tx: Tx, n: nat, ops: set<OutPoint>): nat
    requires n <= |tx.outs|
  {
    if n == 0 then 0
    else
      var out := tx.outs[n - 1];
      Payees(addr, tx, n - 1, ops) +
      if OutPointAt(tx, n - 1) in ops && !out.malformed then PayeesWithin(addr, out, |out.addrs|) else 0
  }

  /** The visits for the first n outputs of a transaction, in whatever order the maps are walked:
      each client once for every address through which it is paid. */
  ghost predicate AreVisits(visits: seq<(OutPoint, ClientId)>, addr: Index<string>, tx: Tx, n: nat)
    requires n <= |tx.outs|
  {
    && (forall op, c :: Times(visits, op, c) == Paths(addr, tx, n, op, c))
    && (forall ops :: VisitsTo(visits, ops) == Payees(addr, tx, n, ops))
  }

  /** The outputs of one transaction: the index once its inputs are handled, and the visits. */
  datatype Round = Round(spent: Index<OutPoint>, visits: seq<(OutPoint, ClientId)>)

  /** `tx` is the memory pool's spend of one of these outpoints. */
  ghost predicate PoolSpend(pool: Pool, ops: seq<OutPoint>, tx: Tx) {
    exists i :: 0 <= i < |ops| && ops[i] in pool && pool[ops[i]] == tx
  }

  /** What watching `op` tells client c about the memory pool. */
  ghost function SpendFor(spent: Index<OutPoint>, pool: Pool, op: OutPoint, c: ClientId): seq<Ntfn> {
    if op in pool && WatchesInput(spent, pool[op].ins, c) then [Redeeming(pool[op], None)] else []
  }

  // ---- The manager ----

  /** Contracts about what clients are told speak of one client `me`, which stands for
      every client: it is a ghost parameter, so the code cannot depend on it. */
  class NotificationManager {
    var spent: Index<OutPoint>
    var addr: Index<string>
    var clients: set<ClientId>
    var blockNotifications: set<ClientId>
    var txNotifications: set<ClientId>
    var queues: map<ClientId, seq<Ntfn>>

    ghost predicate Inv()
      reads this
    {
      Valid(spent) && Valid(addr)
    }

    function Queue(c: ClientId): seq<Ntfn>
      reads this`queues
    {
      if c in queues then queues[c] else []
    }

    /** The client is in no map. */
    ghost predicate Gone(c: ClientId)
      reads this
    {
      && c !in clients && c !in blockNotifications && c !in txNotifications
      && Requests(spent, c) == {} && Requests(addr, c) == {}
      && (forall op :: !Watches(spent, op, c)) && (forall a :: !Watches(addr, a, c))
    }

    constructor ()
      ensures Inv() && forall c :: Gone(c) && Queue(c) == []
    {
      spent, addr, queues := Empty(), Empty(), map[];
      clients, blockNotifications, txNotifications := {}, {}, {};
    }

    method QueueNotification(c: ClientId, n: Ntfn)
      modifies this`queues
      ensures forall d :: Queue(d) == if d == c then old(Queue(d)) + [n] else old(Queue(d))
    {
      queues := queues[c := Queue(c) + [n]];
    }

    /** Tells every client watching an input about `tx` once; a confirmed spend ends those
        watches. */
    method NotifyForTxIns(tx: Tx, block: Option<Hash>, ghost me: ClientId)
      requires Valid(spent)
      modifies this`spent, this`queues
      ensures Valid(spent) && (block.None? ==> spent == old(spent))
      ensures forall op, c :: Watches(spent, op, c) <==>
        Watches(old(spent), op, c) && !(block.Some? && op in Spent(tx.ins))
      ensures Queue(me) ==
        if WatchesInput(old(spent), tx.ins, me) then old(Queue(me)) + [Redeeming(tx, block)] else old(Queue(me))
    {
      var notified: set<ClientId> := {};
      ghost var spent0 := spent;
      for i := 0 to |tx.ins|
        invariant Valid(spent) && (block.None? ==> spent == spent0)
        invariant AfterInputs(spent0, spent, tx.ins, i, block.Some?, notified)
        invariant Queue(me) == if me in notified then old(Queue(me)) + [Redeeming(tx, block)] else old(Queue(me))
      {
        ghost var before, told := spent, notified;
        notified := NotifyInput(tx, block, tx.ins[i].prev, notified, me);
        InputStep(spent0, before, spent, tx.ins, i, block.Some?, told, notified);
      }
      AllInputs(spent0, spent, tx.ins, block.Some?, notified);
    }

    /** Walks the clients watching one spent outpoint while their entries are removed. */
    method NotifyInput(tx: Tx, block: Option<Hash>, prev: OutPoint, told: set<ClientId>, ghost me: ClientId)
      returns (notified: set<ClientId>)
      requires Valid(spent)
      modifies this`spent, this`queues
      ensures Valid(spent) && (block.None? ==> spent == old(spent))
      ensures forall op, c :: Watches(spent, op, c) <==> Watches(old(spent), op, c) && !(block.Some? && op == prev)
      ensures notified == told + Watchers(old(spent), prev)
      ensures Queue(me) ==
        if me in notified && me !in told then old(Queue(me)) + [Redeeming(tx, block)] else old(Queue(me))
    {
      notified := told;
      ghost var all := Watchers(spent, prev);
      var visited: set<ClientId> := {};
      while Watchers(spent, prev) - visited != {}
        invariant Valid(spent) && visited <= all && (block.None? ==> spent == old(spent))
        invariant forall op, c :: Watches(spent, op, c) <==>
          Watches(old(spent), op, c) && !(block.Some? && op == prev && c in visited)
        invariant notified == told + visited
        invariant Queue(me) ==
          if me in notified && me !in told then old(Queue(me)) + [Redeeming(tx, block)] else old(Queue(me))
        decreases all - visited
      {
        var c :| c in Watchers(spent, prev) - visited;
        assert Watches(spent, prev, c);
        visited := visited + {c};
        if block.Some? {
          spent := Remove(spent, c, prev);
        }
        if c !in notified {
          notified := notified + {c};
          QueueNotification(c, Redeeming(tx, block));
        }
      }
      forall c | c in all ensures c in visited {
        assert Watches(old(spent), prev, c);
        assert Watches(spent, prev, c) || c in visited;
        assert c in Watchers(spent, prev) - visited || c in visited;
      }
    }

    /** Registers a client for outpoints and tells every watcher of an existing memory pool
        spend about it, once per spend.  The nested notification neither removes watches nor
        looks at addresses, so it goes no deeper. */
    method AddSpentRequests(c: ClientId, ops: seq<OutPoint>, pool: Pool, ghost me: ClientId)
      requires Valid(spent) && ValidPool(pool)
      modifies this`spent, this`queues
      ensures Valid(spent)
      ensures forall op, d :: Watches(spent, op, d) <==> Watches(old(spent), op, d) || (op in ops && d == c)
      ensures old(Queue(me)) <= Queue(me)
      ensures forall n ::
        multiset(Queue(me)[|old(Queue(me))|..])[n] ==
        if IsMempoolSpend(n) && PoolSpend(pool, ops, n.tx) && WatchesInput(spent, n.tx.ins, me) then 1 else 0
    {
      for i := 0 to |ops|
        invariant Valid(spent) && queues == old(queues)
        invariant forall op, d :: Watches(spent, op, d) <==> Watches(old(spent), op, d) || (op in ops[..i] && d == c)
      {
        spent := Add(spent, c, ops[i]);
        assert ops[..i + 1] == ops[..i] + [ops[i]];
      }
      assert ops[..|ops|] == ops;
      var spends := PoolSpends(ops, pool);
      NotifySpends(spends, me);
      assert forall tx :: PoolSpend(pool, ops, tx) <==> tx.hash in spends && spends[tx.hash] == tx;
    }

    /** The distinct memory pool spends of some outpoints, by hash. */
    static method PoolSpends(ops: seq<OutPoint>, pool: Pool) returns (spends: map<Hash, Tx>)
      requires ValidPool(pool)
      ensures forall h :: h in spends ==> spends[h].hash == h && PoolSpend(pool, ops, spends[h])
      ensures forall tx :: PoolSpend(pool, ops, tx) ==> tx.hash in spends && spends[tx.hash] == tx
    {
      spends := map[];
      for i := 0 to |ops|
        invariant forall h :: h in spends ==> spends[h].hash == h && PoolSpend(pool, ops, spends[h])
        invariant forall k :: 0 <= k < i && ops[k] in pool ==>
          pool[ops[k]].hash in spends && spends[pool[ops[k]].hash] == pool[ops[k]]
      {
        if ops[i] in pool {
          spends := spends[pool[ops[i]].hash := pool[ops[i]]];
        }
      }
    }

    /** Tells the watchers of each spend, in whatever order the spends come. */
    method NotifySpends(spends: map<Hash, Tx>, ghost me: ClientId)
      requires Valid(spent) && forall h :: h in spends ==> spends[h].hash == h
      modifies this`spent, this`queues
      ensures spent == old(spent) && old(Queue(me)) <= Queue(me)
      ensures ToldOnce(Queue(me)[|old(Queue(me))|..], spent, spends, {}, me)
    {
      var todo := spends.Keys;
      while todo != {}
        invariant todo <= spends.Keys && spent == old(spent) && old(Queue(me)) <= Queue(me)
        invariant ToldOnce(Queue(me)[|old(Queue(me))|..], spent, spends, todo, me)
        decreases todo
      {
        var h :| h in todo;
        ghost var q := Queue(me);
        if spent.watchers != map[] {
          NotifyForTxIns(spends[h], None, me);
        }
        ToldOneMore(q[|old(Queue(me))|..], spent, spends, todo, h, me);
        assert (q + [Redeeming(spends[h], None)])[|old(Queue(me))|..] ==
               q[|old(Queue(me))|..] + [Redeeming(spends[h], None)];
        todo := todo - {h};
      }
    }

    /** Tells every client watching an output's address about `tx` once and watches each
        matching output for it.  The memory pool spends told meanwhile are exactly those of the
        visits. */
    method NotifyForTxOuts(tx: Tx, block: Option<Hash>, pool: Pool, ghost me: ClientId)
      returns (ghost visits: seq<(OutPoint, ClientId)>)
      requires Inv() && ValidPool(pool)
      modifies this`spent, this`queues
      ensures Inv()
      ensures forall op, c :: Watches(spent, op, c) <==>
        Watches(old(spent), op, c) || Registers(addr, tx, |tx.outs|, op, c)
      ensures old(Queue(me)) <= Queue(me)
      ensures Plain(Queue(me)) ==
        if IsPaid(addr, tx, |tx.outs|, me) then Plain(old(Queue(me))) + [Recv(tx, block)] else Plain(old(Queue(me)))
      ensures AreVisits(visits, addr, tx, |tx.outs|)
      ensures SpendList(Queue(me)) == SpendList(old(Queue(me))) + VisitSpends(old(spent), pool, visits, me)
    {
      ghost var spent0, base := spent, Queue(me);
      var notified;
      notified, visits := NotifyOutputs(tx, block, pool, spent0, base, me);
      OutsDone(spent0, base, spent, Queue(me), Recv(tx, block), pool, notified, visits, me, addr, tx);
    }

    /** Walks the outputs. */
    method NotifyOutputs(
      tx: Tx, block: Option<Hash>, pool: Pool, ghost spent0: Index<OutPoint>, ghost base: seq<Ntfn>, ghost me: ClientId)
      returns (notified: set<ClientId>, ghost visits: seq<(OutPoint, ClientId)>)
      requires ValidPool(pool) && OutsInv(spent0, base, spent, Queue(me), Recv(tx, block), pool, {}, [], me)
      modifies this`spent, this`queues
      ensures OutsInv(spent0, base, spent, Queue(me), Recv(tx, block), pool, notified, visits, me)
      ensures AreVisits(visits, addr, tx, |tx.outs|)
    {
      notified, visits := {}, [];
      Unvisited(addr, tx);
      for i := 0 to |tx.outs|
        invariant OutsInv(spent0, base, spent, Queue(me), Recv(tx, block), pool, notified, visits, me)
        invariant AreVisits(visits, addr, tx, i)
      {
        notified, visits := NextOutput(tx, i, block, pool, notified, spent0, base, visits, me);
      }
    }

    method NextOutput(
      tx: Tx, i: nat, block: Option<Hash>, pool: Pool, told: set<ClientId>, ghost spent0: Index<OutPoint>,
      ghost base: seq<Ntfn>, ghost visits0: seq<(OutPoint, ClientId)>, ghost me: ClientId)
      returns (notified: set<ClientId>, ghost visits: seq<(OutPoint, ClientId)>)
      requires i < |tx.outs| && ValidPool(pool) && AreVisits(visits0, addr, tx, i)
      requires OutsInv(spent0, base, spent, Queue(me), Recv(tx, block), pool, told, visits0, me)
      modifies this`spent, this`queues
      ensures OutsInv(spent0, base, spent, Queue(me), Recv(tx, block), pool, notified, visits, me)
      ensures AreVisits(visits, addr, tx, i + 1)
    {
      notified, visits := NotifyOutput(tx, i, block, pool, told, spent0, base, visits0, me);
      VisitsStep(visits0, visits, addr, tx, i);
    }

    method NotifyOutput(
      tx: Tx, i: nat, block: Option<Hash>, pool: Pool, told: set<ClientId>, ghost spent0: Index<OutPoint>,
      ghost base: seq<Ntfn>, ghost visits0: seq<(OutPoint, ClientId)>, ghost me: ClientId)
      returns (notified: set<ClientId>, ghost visits: seq<(OutPoint, ClientId)>)
      requires i < |tx.outs| && ValidPool(pool)
      requires OutsInv(spent0, base, spent, Queue(me), Recv(tx, block), pool, told, visits0, me)
      modifies this`spent, this`queues
      ensures OutsInv(spent0, base, spent, Queue(me), Recv(tx, block), pool, notified, visits, me)
      ensures OutputVisited(visits0, visits, addr, tx.outs[i], OutPointAt(tx, i),
                            if tx.outs[i].malformed then 0 else |tx.outs[i].addrs|)
    {
      notified, visits := told, visits0;
      var out := tx.outs[i];
      OutputUnvisited(visits0, addr, out, OutPointAt(tx, i));
      if out.malformed {
        return;
      }
      for j := 0 to |out.addrs|
        invariant OutsInv(spent0, base, spent, Queue(me), Recv(tx, block), pool, notified, visits, me)
        invariant OutputVisited(visits0, visits, addr, out, OutPointAt(tx, i), j)
      {
        ghost var before := visits;
        var a := out.addrs[j].encoded;
        notified, visits := NotifyOutputAddr(tx, i, a, block, pool, notified, spent0, base, visits, me);
        OutputVisitedStep(visits0, before, visits, addr, out, OutPointAt(tx, i), j);
      }
    }

    /** Walks the clients watching one address of one output. */
    method NotifyOutputAddr(
      tx: Tx, i: nat, a: string, block: Option<Hash>, pool: Pool, told: set<ClientId>, ghost spent0: Index<OutPoint>,
      ghost base: seq<Ntfn>, ghost visits0: seq<(OutPoint, ClientId)>, ghost me: ClientId)
      returns (notified: set<ClientId>, ghost visits: seq<(OutPoint, ClientId)>)
      requires ValidPool(pool)
      requires OutsInv(spent0, base, spent, Queue(me), Recv(tx, block), pool, told, visits0, me)
      modifies this`spent, this`queues
      ensures OutsInv(spent0, base, spent, Queue(me), Recv(tx, block), pool, notified, visits, me)
      ensures Visited(visits0, visits, OutPointAt(tx, i), Watchers(addr, a))
    {
      notified, visits := told, visits0;
      var todo := Watchers(addr, a);
      while todo != {}
        invariant todo <= Watchers(addr, a)
        invariant OutsInv(spent0, base, spent, Queue(me), Recv(tx, block), pool, notified, visits, me)
        invariant Visited(visits0, visits, OutPointAt(tx, i), Watchers(addr, a) - todo)
        decreases todo
      {
        var c :| c in todo;
        VisitedStep(visits0, visits, OutPointAt(tx, i), Watchers(addr, a) - todo, c);
        assert Watchers(addr, a) - (todo - {c}) == Watchers(addr, a) - todo + {c};
        todo := todo - {c};
        notified := RegisterPaid(c, OutPointAt(tx, i), tx, block, pool, notified, spent0, base, visits, me);
        visits := visits + [(OutPointAt(tx, i), c)];
      }
    }

    /** One client paid by one output: watch it, and tell the client unless it has been. */
    method RegisterPaid(
      c: ClientId, op: OutPoint, tx: Tx, block: Option<Hash>, pool: Pool, told: set<ClientId>,
      ghost spent0: Index<OutPoint>,
      ghost base: seq<Ntfn>, ghost visits: seq<(OutPoint, ClientId)>, ghost me: ClientId)
      returns (notified: set<ClientId>)
      requires ValidPool(pool)
      requires OutsInv(spent0, base, spent, Queue(me), Recv(tx, block), pool, told, visits, me)
      modifies this`spent, this`queues
      ensures OutsInv(spent0, base, spent, Queue(me), Recv(tx, block), pool, notified, visits + [(op, c)], me)
    {
      ghost var q0, spent1 := Queue(me), spent;
      AddSpentRequests(c, [op], pool, me);
      ghost var q1 := Queue(me);
      SingleSpend(q0, q1, spent, pool, op, me);
      notified := told;
      if c !in notified {
        notified := notified + {c};
        QueueNotification(c, Recv(tx, block));
      }
      assert notified == told + {c};
      PaidKeepsInv(spent0, base, spent1, q0, spent, Queue(me), Recv(tx, block), pool, told, visits, c, op, me);
    }

    /** Both halves of a transaction.  The emptiness guards skip only work that would
        change nothing. */
    method NotifyForTx(tx: Tx, block: Option<Hash>, pool: Pool, ghost me: ClientId)
      returns (ghost round: Round)
      requires Inv() && ValidPool(pool)
      modifies this`spent, this`queues
      ensures Inv() && TxDone(old(spent), spent, round, addr, tx, block.Some?)
      ensures SpendList(Queue(me)) == SpendList(old(Queue(me)))
        + (if block.None? && WatchesInput(old(spent), tx.ins, me) then [tx] else [])
        + VisitSpends(round.spent, pool, round.visits, me)
      ensures Plain(Queue(me)) == Plain(old(Queue(me)))
        + Told(tx, block, block.Some? && WatchesInput(old(spent), tx.ins, me), IsPaid(addr, tx, |tx.outs|, me))
      ensures old(Queue(me)) + Told(tx, block, WatchesInput(old(spent), tx.ins, me), false) <= Queue(me)
    {
      GuardedIns(tx, block, me);
      ghost var between := spent;
      ghost var visits := GuardedOuts(tx, block, pool, me);
      round := Round(between, visits);
    }

    method GuardedIns(tx: Tx, block: Option<Hash>, ghost me: ClientId)
      requires Inv()
      modifies this`spent, this`queues
      ensures Inv()
      ensures forall op, c :: Watches(spent, op, c) <==>
        Watches(old(spent), op, c) && !(block.Some? && op in Spent(tx.ins))
      ensures Plain(Queue(me)) ==
        Plain(old(Queue(me))) + Told(tx, block, block.Some? && WatchesInput(old(spent), tx.ins, me), false)
      ensures Queue(me) == old(Queue(me)) + Told(tx, block, WatchesInput(old(spent), tx.ins, me), false)
      ensures SpendList(Queue(me)) ==
        SpendList(old(Queue(me))) + if block.None? && WatchesInput(old(spent), tx.ins, me) then [tx] else []
    {
      QueueAppend(Queue(me), Redeeming(tx, block));
      if spent.watchers != map[] {
        NotifyForTxIns(tx, block, me);
      }
    }

    method GuardedOuts(tx: Tx, block: Option<Hash>, pool: Pool, ghost me: ClientId)
      returns (ghost visits: seq<(OutPoint, ClientId)>)
      requires Inv() && ValidPool(pool)
      modifies this`spent, this`queues
      ensures Inv() && AreVisits(visits, addr, tx, |tx.outs|)
      ensures SpendList(Queue(me)) == SpendList(old(Queue(me))) + VisitSpends(old(spent), pool, visits, me)
      ensures forall op, c :: Watches(spent, op, c) <==>
        Watches(old(spent), op, c) || Registers(addr, tx, |tx.outs|, op, c)
      ensures old(Queue(me)) <= Queue(me)
      ensures Plain(Queue(me)) == Plain(old(Queue(me))) + Told(tx, block, false, IsPaid(addr, tx, |tx.outs|, me))
    {
      if addr.watchers != map[] {
        visits := NotifyForTxOuts(tx, block, pool, me);
      } else {
        visits := [];
        NobodyPaid(addr, tx);
        NobodyVisited(addr, tx);
      }
    }

    /** A connected block refines the fold over the plain relation: after it, exactly the
        relation of `Watching` holds, and every client was told exactly its `BlockNtfns`, in
        order, and the memory pool spends of the rounds, in order. */
    method HandleBlockConnected(block: Block, pool: Pool, ghost me: ClientId) returns (ghost rounds: seq<Round>)
      requires Inv() && ValidPool(pool)
      modifies this`spent, this`queues
      ensures Inv() && old(Queue(me)) <= Queue(me)
      ensures forall op, c :: Watches(spent, op, c) <==> Watching(old(spent), addr, block.txs, |block.txs|, op, c)
      ensures Plain(Queue(me)) == Plain(old(Queue(me))) + BlockNtfns(old(spent), addr, block, |block.txs|, me)
      ensures AreRounds(rounds, old(spent), addr, block.txs, |block.txs|)
      ensures SpendList(Queue(me)) == SpendList(old(Queue(me))) + RoundSpends(pool, rounds, |block.txs|, me)
    {
      if spent.watchers != map[] || addr.watchers != map[] {
        rounds := ConnectAll(block, pool, me);
      } else {
        NothingWatched(spent, addr, block, |block.txs|, me);
        rounds := NoRounds(spent, addr, block, pool, |block.txs|, me);
      }
    }

    /** The transactions of a connected block, in order. */
    method ConnectAll(block: Block, pool: Pool, ghost me: ClientId) returns (ghost rounds: seq<Round>)
      requires Inv() && ValidPool(pool)
      modifies this`spent, this`queues
      ensures Inv() && SoFar(old(spent), addr, old(Queue(me)), spent, Queue(me), block, pool, rounds, |block.txs|, me)
    {
      ghost var spent0, base := spent, Queue(me);
      rounds := [];
      NothingSoFar(spent0, addr, base, block, pool, me);
      for n := 0 to |block.txs|
        invariant Inv() && SoFar(spent0, addr, base, spent, Queue(me), block, pool, rounds, n, me)
      {
        rounds := ConnectTx(block, n, pool, spent0, base, rounds, me);
      }
    }

    /** The next transaction of a connected block. */
    method ConnectTx(
      block: Block, n: nat, pool: Pool, ghost spent0: Index<OutPoint>, ghost base: seq<Ntfn>,
      ghost rounds0: seq<Round>, ghost me: ClientId)
      returns (ghost rounds: seq<Round>)
      requires n < |block.txs| && Inv() && ValidPool(pool)
      requires SoFar(spent0, addr, base, spent, Queue(me), block, pool, rounds0, n, me)
      modifies this`spent, this`queues
      ensures Inv() && SoFar(spent0, addr, base, spent, Queue(me), block, pool, rounds, n + 1, me)
    {
      ghost var before, q := spent, Queue(me);
      ghost var round := NotifyForTx(block.txs[n], Some(block.hash), pool, me);
      rounds := rounds0 + [round];
      FollowsStep(before, spent, round, spent0, addr, block.txs, n);
      RoundsStep(rounds0, round, spent0, addr, block.txs, n);
      ToldStep(spent0, addr, before, block, n, pool, rounds0, round, base, q, Queue(me), me);
    }

    /** A transaction enters the memory pool: watchers of its inputs are told of the spend and
        keep their watches, and paid clients are told once and watch what they were paid. */
    method HandleMempoolTx(tx: Tx, pool: Pool, ghost me: ClientId) returns (ghost visits: seq<(OutPoint, ClientId)>)
      requires Inv() && ValidPool(pool)
      modifies this`spent, this`queues
      ensures Inv()
      ensures old(Queue(me)) + Told(tx, None, WatchesInput(old(spent), tx.ins, me), false) <= Queue(me)
      ensures Plain(Queue(me)) == Plain(old(Queue(me))) + Told(tx, None, false, IsPaid(addr, tx, |tx.outs|, me))
      ensures AreVisits(visits, addr, tx, |tx.outs|)
      ensures SpendList(Queue(me)) == SpendList(old(Queue(me)))
        + (if WatchesInput(old(spent), tx.ins, me) then [tx] else []) + VisitSpends(old(spent), pool, visits, me)
      ensures forall op, c :: Watches(spent, op, c) <==>
        Watches(old(spent), op, c) || Registers(addr, tx, |tx.outs|, op, c)
    {
      ghost var round := NotifyForTx(tx, None, pool, me);
      visits := round.visits;
      SameVisitSpends(round.spent, old(spent), pool, visits, me);
    }

    /** Removes the requests of a client and the client itself. */
    method HandleUnregisterClient(c: ClientId)
      requires Inv()
      modifies this`spent, this`addr, this`clients, this`blockNotifications, this`txNotifications
      ensures Inv() && Gone(c) && clients == old(clients) - {c}
      ensures blockNotifications == old(blockNotifications) - {c} && txNotifications == old(txNotifications) - {c}
      ensures forall op, d :: Watches(spent, op, d) <==> Watches(old(spent), op, d) && d != c
      ensures forall a, d :: Watches(addr, a, d) <==> Watches(old(addr), a, d) && d != c
    {
      blockNotifications := blockNotifications - {c};
      txNotifications := txNotifications - {c};
      spent := RemoveAll(spent, c);
      addr := RemoveAll(addr, c);
      clients := clients - {c};
    }

    method AddAddrRequests(c: ClientId, addrs: seq<string>)
      requires Inv()
      modifies this`addr
      ensures Inv()
      ensures forall a, d :: Watches(addr, a, d) <==> Watches(old(addr), a, d) || (a in addrs && d == c)
    {
      for i := 0 to |addrs|
        invariant Inv()
        invariant forall a, d :: Watches(addr, a, d) <==> Watches(old(addr), a, d) || (a in addrs[..i] && d == c)
      {
        addr := Add(addr, c, addrs[i]);
        assert addrs[..i + 1] == addrs[..i] + [addrs[i]];
      }
      assert addrs[..|addrs|] == addrs;
    }

    /** One message of the handler loop: each does to the plain relations what it says. */
    method Handle(msg: Msg, ghost me: ClientId) returns (ghost spends: seq<Tx>)
      requires Inv() && (msg.BlockConnected? || msg.TxAccepted? || msg.RegisterSpent? ==> ValidPool(msg.pool))
      modifies this
      ensures Inv()
      ensures forall op, d :: Watches(spent, op, d) <==> SpentAfter(old(spent), old(addr), msg, op, d)
      ensures forall a, d :: Watches(addr, a, d) <==> AddrAfter(old(addr), msg, a, d)
      ensures clients == SetAfter(old(clients), msg, msg.RegisterClient?)
      ensures blockNotifications
           == SetAfter(old(blockNotifications), msg, msg.RegisterBlocks?) - Leaves(msg, msg.UnregisterBlocks?)
      ensures txNotifications
           == SetAfter(old(txNotifications), msg, msg.RegisterMempool?) - Leaves(msg, msg.UnregisterMempool?)
      ensures msg.UnregisterClient? ==> Gone(msg.c)
      ensures old(Queue(me)) <= Queue(me)
      ensures Plain(Queue(me)) == Plain(old(Queue(me))) + MsgNtfns(old(spent), old(addr), msg, me)
      ensures SpendList(Queue(me)) == SpendList(old(Queue(me))) + spends
      ensures MsgSpends(old(spent), old(addr), msg, spends, me)
    {
      spends := [];
      if JoinsOrLeaves(msg) {
        HandleMembership(msg);
      } else if TellsOfSpends(msg) {
        spends := HandleSpends(msg, me);
      } else {
        HandleRequests(msg);
      }
    }

    /** The messages about which clients want which kind of notification. */
    method HandleMembership(msg: Msg)
      requires JoinsOrLeaves(msg)
      modifies this`clients, this`blockNotifications, this`txNotifications
      ensures clients == SetAfter(old(clients), msg, msg.RegisterClient?)
      ensures blockNotifications
           == SetAfter(old(blockNotifications), msg, msg.RegisterBlocks?) - Leaves(msg, msg.UnregisterBlocks?)
      ensures txNotifications
           == SetAfter(old(txNotifications), msg, msg.RegisterMempool?) - Leaves(msg, msg.UnregisterMempool?)
    {
      match msg {
        case RegisterBlocks(c) => blockNotifications := blockNotifications + {c};
        case UnregisterBlocks(c) => blockNotifications := blockNotifications - {c};
        case RegisterClient(c) => clients := clients + {c};
        case RegisterMempool(c) => txNotifications := txNotifications + {c};
        case UnregisterMempool(c) => txNotifications := txNotifications - {c};
      }
    }

    /** The messages that end or add watches without telling anybody. */
    method HandleRequests(msg: Msg)
      requires !JoinsOrLeaves(msg) && !TellsOfSpends(msg) && Inv()
      modifies this`spent, this`addr, this`clients, this`blockNotifications, this`txNotifications
      ensures Inv()
      ensures forall op, d :: Watches(spent, op, d) <==> SpentAfter(old(spent), old(addr), msg, op, d)
      ensures forall a, d :: Watches(addr, a, d) <==> AddrAfter(old(addr), msg, a, d)
      ensures msg.UnregisterClient? ==> Gone(msg.c)
      ensures clients == old(clients) - Leaves(msg, msg.UnregisterClient?)
      ensures blockNotifications == old(blockNotifications) - Leaves(msg, msg.UnregisterClient?)
      ensures txNotifications == old(txNotifications) - Leaves(msg, msg.UnregisterClient?)
    {
      match msg {
        case UnregisterClient(c) => HandleUnregisterClient(c);
        case UnregisterSpent(c, op) => spent := Remove(spent, c, op);
        case RegisterAddr(c, addrs) => AddAddrRequests(c, addrs);
        case UnregisterAddr(c, a) => addr := Remove(addr, c, a);
      }
    }

    /** The messages that tell clients of something. */
    method HandleSpends(msg: Msg, ghost me: ClientId) returns (ghost spends: seq<Tx>)
      requires TellsOfSpends(msg) && Inv() && ValidPool(msg.pool)
      modifies this`spent, this`queues
      ensures Inv()
      ensures forall op, d :: Watches(spent, op, d) <==> SpentAfter(old(spent), addr, msg, op, d)
      ensures old(Queue(me)) <= Queue(me)
      ensures Plain(Queue(me)) == Plain(old(Queue(me))) + MsgNtfns(old(spent), addr, msg, me)
      ensures SpendList(Queue(me)) == SpendList(old(Queue(me))) + spends
      ensures MsgSpends(old(spent), addr, msg, spends, me)
    {
      match msg
      case BlockConnected(_, _) => spends := HandleBlockMsg(msg, me);
      case TxAccepted(_, _) => spends := HandleTxMsg(msg, me);
      case RegisterSpent(_, _, _) => spends := HandleSpentMsg(msg, me);
    }

    method HandleBlockMsg(msg: Msg, ghost me: ClientId) returns (ghost spends: seq<Tx>)
      requires msg.BlockConnected? && Inv() && ValidPool(msg.pool)
      modifies this`spent, this`queues
      ensures Inv()
      ensures forall op, d :: Watches(spent, op, d) <==> SpentAfter(old(spent), addr, msg, op, d)
      ensures old(Queue(me)) <= Queue(me)
      ensures Plain(Queue(me)) == Plain(old(Queue(me))) + MsgNtfns(old(spent), addr, msg, me)
      ensures SpendList(Queue(me)) == SpendList(old(Queue(me))) + spends
      ensures MsgSpends(old(spent), addr, msg, spends, me)
    {
      ghost var rounds := HandleBlockConnected(msg.block, msg.pool, me);
      spends := RoundSpends(msg.pool, rounds, |msg.block.txs|, me);
      assert BlockSpends(old(spent), addr, msg.block, msg.pool, rounds, spends, me);
    }

    method HandleTxMsg(msg: Msg, ghost me: ClientId) returns (ghost spends: seq<Tx>)
      requires msg.TxAccepted? && Inv() && ValidPool(msg.pool)
      modifies this`spent, this`queues
      ensures Inv()
      ensures forall op, d :: Watches(spent, op, d) <==> SpentAfter(old(spent), addr, msg, op, d)
      ensures old(Queue(me)) <= Queue(me)
      ensures Plain(Queue(me)) == Plain(old(Queue(me))) + MsgNtfns(old(spent), addr, msg, me)
      ensures SpendList(Queue(me)) == SpendList(old(Queue(me))) + spends
      ensures MsgSpends(old(spent), addr, msg, spends, me)
    {
      ghost var visits := HandleMempoolTx(msg.tx, msg.pool, me);
      ghost var first := if WatchesInput(old(spent), msg.tx.ins, me) then [msg.tx] else [];
      ghost var more := VisitSpends(old(spent), msg.pool, visits, me);
      spends := first + more;
      AppendAssoc(SpendList(old(Queue(me))), first, more);
      assert TxSpends(old(spent), addr, msg.tx, msg.pool, visits, spends, me);
    }

    method HandleSpentMsg(msg: Msg, ghost me: ClientId) returns (ghost spends: seq<Tx>)
      requires msg.RegisterSpent? && Inv() && ValidPool(msg.pool)
      modifies this`spent, this`queues
      ensures Inv()
      ensures forall op, d :: Watches(spent, op, d) <==> SpentAfter(old(spent), addr, msg, op, d)
      ensures old(Queue(me)) <= Queue(me)
      ensures Plain(Queue(me)) == Plain(old(Queue(me))) + MsgNtfns(old(spent), addr, msg, me)
      ensures SpendList(Queue(me)) == SpendList(old(Queue(me))) + spends
      ensures MsgSpends(old(spent), addr, msg, spends, me)
    {
      ghost var q := Queue(me);
      AddSpentRequests(msg.c, msg.ops, msg.pool, me);
      OnlySpends(q, Queue(me));
      spends := SpendList(Queue(me)[|q|..]);
      RequestSpends(old(spent), spent, msg.c, msg.ops, msg.pool, q, Queue(me), me);
    }

    /** Every run of the handler keeps both directions of both indexes in step and free of
        empty entries, and a client whose last message was its removal is nowhere.  `trace` are
        the indexes between the messages: each message takes one to the next as it should, and
        tells a client exactly its notifications and memory pool spends. */
    method Run(msgs: seq<Msg>, ghost me: ClientId)
      returns (ghost trace: seq<(Index<OutPoint>, Index<string>)>, ghost spends: seq<seq<Tx>>)
      requires Inv()
      requires forall k :: 0 <= k < |msgs| && TellsOfSpends(msgs[k]) ==> ValidPool(msgs[k].pool)
      modifies this
      ensures Inv()
      ensures msgs != [] && msgs[|msgs| - 1].UnregisterClient? ==> Gone(msgs[|msgs| - 1].c)
      ensures IsTrace(trace, msgs, |msgs|) && trace[0] == (old(spent), old(addr)) && trace[|msgs|] == (spent, addr)
      ensures Plain(Queue(me)) == Plain(old(Queue(me))) + RunNtfns(trace, msgs, |msgs|, me)
      ensures AreSpends(trace, msgs, spends, |msgs|, me)
      ensures SpendList(Queue(me)) == SpendList(old(Queue(me))) + RunSpends(spends, |msgs|)
    {
      trace, spends := [(spent, addr)], [];
      for i := 0 to |msgs|
        invariant Inv()
        invariant i > 0 && msgs[i - 1].UnregisterClient? ==> Gone(msgs[i - 1].c)
        invariant IsTrace(trace, msgs, i) && trace[0] == (old(spent), old(addr)) && trace[i] == (spent, addr)
        invariant Plain(Queue(me)) == Plain(old(Queue(me))) + RunNtfns(trace, msgs, i, me)
        invariant AreSpends(trace, msgs, spends, i, me)
        invariant SpendList(Queue(me)) == SpendList(old(Queue(me))) + RunSpends(spends, i)
      {
        ghost var more := Handle(msgs[i], me);
        TraceStep(trace, msgs, i, (spent, addr), me);
        SpendsStep(trace, msgs, spends, i, (spent, addr), more, me);
        AppendAssoc(Plain(old(Queue(me))), RunNtfns(trace, msgs, i, me), MsgNtfns(trace[i].0, trace[i].1, msgs[i], me));
        AppendAssoc(SpendList(old(Queue(me))), RunSpends(spends, i), more);
        trace, spends := trace + [(spent, addr)], spends + [more];
      }
    }
  }

  /** Messages of the handler.  `pool` is the memory pool at the time of handling. */
  datatype Msg =
    | BlockConnected(block: Block, pool: Pool)
    | TxAccepted(tx: Tx, pool: Pool)
    | RegisterBlocks(c: ClientId)
    | UnregisterBlocks(c: ClientId)
    | RegisterClient(c: ClientId)
    | UnregisterClient(c: ClientId)
    | RegisterSpent(c: ClientId, ops: seq<OutPoint>, pool: Pool)
    | UnregisterSpent(c: ClientId, op: OutPoint)
    | RegisterAddr(c: ClientId, addrs: seq<string>)
    | UnregisterAddr(c: ClientId, a: string)
    | RegisterMempool(c: ClientId)
    | UnregisterMempool(c: ClientId)

  /** What a message tells client c, apart from memory pool spends. */
  ghost function MsgNtfns(spent: Index<OutPoint>, addr: Index<string>, msg: Msg, c: ClientId): seq<Ntfn> {
    match msg
    case BlockConnected(block, _) => BlockNtfns(spent, addr, block, |block.txs|, c)
    case TxAccepted(tx, _) => Told(tx, None, false, IsPaid(addr, tx, |tx.outs|, c))
    case _ => []
  }

  predicate TellsOfSpends(msg: Msg) {
    msg.BlockConnected? || msg.TxAccepted? || msg.RegisterSpent?
  }

  ghost predicate BlockSpends(
    spent: Index<OutPoint>, addr: Index<string>, block: Block, pool: Pool, rounds: seq<Round>, spends: seq<Tx>,
    c: ClientId)
  {
    AreRounds(rounds, spent, addr, block.txs, |block.txs|) && spends == RoundSpends(pool, rounds, |block.txs|, c)
  }

  ghost predicate TxSpends(
    spent: Index<OutPoint>, addr: Index<string>, tx: Tx, pool: Pool, visits: seq<(OutPoint, ClientId)>, spends: seq<Tx>,
    c: ClientId)
  {
    && AreVisits(visits, addr, tx, |tx.outs|)
    && spends == (if WatchesInput(spent, tx.ins, c) then [tx] else []) + VisitSpends(spent, pool, visits, c)
  }

  /** Client c watches one of these inputs once client d has asked for some outpoints. */
  ghost predicate WatchesWith(
    spent: Index<OutPoint>, d: ClientId, ops: seq<OutPoint>, ins: seq<TxIn>, c: ClientId)
  {
    exists i :: 0 <= i < |ins| && (Watches(spent, ins[i].prev, c) || (ins[i].prev in ops && c == d))
  }

  /** The memory pool spends that a message tells client c, in the order of some walk. */
  ghost predicate MsgSpends(spent: Index<OutPoint>, addr: Index<string>, msg: Msg, spends: seq<Tx>, c: ClientId) {
    match msg
    case BlockConnected(block, pool) => exists rounds :: BlockSpends(spent, addr, block, pool, rounds, spends, c)
    case TxAccepted(tx, pool) => exists visits :: TxSpends(spent, addr, tx, pool, visits, spends, c)
    case RegisterSpent(d, ops, pool) =>
      forall s :: CountTx(spends, s) == if PoolSpend(pool, ops, s) && WatchesWith(spent, d, ops, s.ins, c) then 1 else 0
    case _ => spends == []
  }

  lemma {:induction false} SpendListConcat(a: seq<Ntfn>, b: seq<Ntfn>)
    ensures SpendList(a + b) == SpendList(a) + SpendList(b)
    decreases |b|
  {
    if b == [] {
      assert a + b == a;
    } else {
      var front := b[..|b| - 1];
      assert (a + b)[..|a + b| - 1] == a + front;
      SpendListConcat(a, front);
    }
  }

  lemma {:induction false} CountNews(news: seq<Ntfn>, s: Tx)
    ensures CountTx(SpendList(news), s) == multiset(news)[Redeeming(s, None)]
    decreases |news|
  {
    if news != [] {
      var front, last := news[..|news| - 1], news[|news| - 1];
      assert news == front + [last];
      CountNews(front, s);
      if IsMempoolSpend(last) {
        CountTxAppend(SpendList(front), last.tx, s);
      } else {
        assert SpendList(front) + [] == SpendList(front);
      }
    }
  }

  /** What a client is told when somebody asks for outpoints that the pool spends. */
  lemma RequestSpends(
    before: Index<OutPoint>, after: Index<OutPoint>, c: ClientId, ops: seq<OutPoint>, pool: Pool,
    q: seq<Ntfn>, now: seq<Ntfn>, me: ClientId)
    requires forall op, d :: Watches(after, op, d) <==> Watches(before, op, d) || (op in ops && d == c)
    requires q <= now
    requires forall n ::
      multiset(now[|q|..])[n] ==
      if IsMempoolSpend(n) && PoolSpend(pool, ops, n.tx) && WatchesInput(after, n.tx.ins, me) then 1 else 0
    ensures SpendList(now) == SpendList(q) + SpendList(now[|q|..])
    ensures forall s ::
      CountTx(SpendList(now[|q|..]), s)
      == if PoolSpend(pool, ops, s) && WatchesWith(before, c, ops, s.ins, me) then 1 else 0
  {
    assert now == q + now[|q|..];
    SpendListConcat(q, now[|q|..]);
    forall s
      ensures CountTx(SpendList(now[|q|..]), s) ==
        if PoolSpend(pool, ops, s) && WatchesWith(before, c, ops, s.ins, me) then 1 else 0
    {
      CountNews(now[|q|..], s);
      SameWatchesWith(before, after, c, ops, s.ins, me);
    }
  }

  lemma SameWatchesWith(
    before: Index<OutPoint>, after: Index<OutPoint>, c: ClientId, ops: seq<OutPoint>, ins: seq<TxIn>, me: ClientId)
    requires forall op, d :: Watches(after, op, d) <==> Watches(before, op, d) || (op in ops && d == c)
    ensures WatchesInput(after, ins, me) <==> WatchesWith(before, c, ops, ins, me)
  {
    if i :| 0 <= i < |ins| && Watches(after, ins[i].prev, me) {
      assert Watches(before, ins[i].prev, me) || (ins[i].prev in ops && me == c);
    }
    if i :| 0 <= i < |ins| && (Watches(before, ins[i].prev, me) || (ins[i].prev in ops && me == c)) {
      assert Watches(after, ins[i].prev, me);
    }
  }

  /** The spends told by each of the first n messages. */
  ghost predicate AreSpends(
    trace: seq<(Index<OutPoint>, Index<string>)>, msgs: seq<Msg>, spends: seq<seq<Tx>>, n: nat, c: ClientId)
    requires n <= |msgs| && n < |trace|
  {
    |spends| == n && forall i :: 0 <= i < n ==> MsgSpends(trace[i].0, trace[i].1, msgs[i], spends[i], c)
  }

  function RunSpends(spends: seq<seq<Tx>>, n: nat): seq<Tx>
    requires n <= |spends|
  {
    if n == 0 then [] else RunSpends(spends, n - 1) + spends[n - 1]
  }

  lemma {:induction false} RunSpendsPrefix(spends: seq<seq<Tx>>, more: seq<Tx>, n: nat)
    requires n <= |spends|
    ensures RunSpends(spends + [more], n) == RunSpends(spends, n)
  {
    if n > 0 {
      RunSpendsPrefix(spends, more, n - 1);
    }
  }

  lemma SpendsStep(
    trace: seq<(Index<OutPoint>, Index<string>)>, msgs: seq<Msg>, spends: seq<seq<Tx>>, n: nat,
    next: (Index<OutPoint>, Index<string>), more: seq<Tx>, c: ClientId)
    requires n < |msgs| && |trace| == n + 1 && AreSpends(trace, msgs, spends, n, c)
    requires MsgSpends(trace[n].0, trace[n].1, msgs[n], more, c)
    ensures AreSpends(trace + [next], msgs, spends + [more], n + 1, c)
    ensures RunSpends(spends + [more], n + 1) == RunSpends(spends, n) + more
  {
    RunSpendsPrefix(spends, more, n);
    var longer, all := trace + [next], spends + [more];
    forall i | 0 <= i < n + 1
      ensures MsgSpends(longer[i].0, longer[i].1, msgs[i], all[i], c)
    {
      if i < n {
        assert longer[i] == trace[i] && all[i] == spends[i];
      }
    }
  }

  /** The indexes before each of the first n messages and after the last of them. */
  ghost predicate IsTrace(trace: seq<(Index<OutPoint>, Index<string>)>, msgs: seq<Msg>, n: nat)
    requires n <= |msgs|
  {
    && |trace| == n + 1
    && forall i :: 0 <= i < n ==> IsStep(trace[i], trace[i + 1], msgs[i])
  }

  ghost predicate IsStep(a: (Index<OutPoint>, Index<string>), b: (Index<OutPoint>, Index<string>), msg: Msg) {
    && (forall op, d :: Watches(b.0, op, d) <==> SpentAfter(a.0, a.1, msg, op, d))
    && (forall k, d :: Watches(b.1, k, d) <==> AddrAfter(a.1, msg, k, d))
  }

  ghost function RunNtfns(
    trace: seq<(Index<OutPoint>, Index<string>)>, msgs: seq<Msg>, n: nat, c: ClientId): seq<Ntfn>
    requires n <= |msgs| && n < |trace|
  {
    if n == 0 then []
    else RunNtfns(trace, msgs, n - 1, c) + MsgNtfns(trace[n - 1].0, trace[n - 1].1, msgs[n - 1], c)
  }

  lemma TraceStep(
    trace: seq<(Index<OutPoint>, Index<string>)>, msgs: seq<Msg>, n: nat, next: (Index<OutPoint>, Index<string>),
    c: ClientId)
    requires n < |msgs| && IsTrace(trace, msgs, n) && IsStep(trace[n], next, msgs[n])
    ensures IsTrace(trace + [next], msgs, n + 1)
    ensures RunNtfns(trace + [next], msgs, n + 1, c)
         == RunNtfns(trace, msgs, n, c) + MsgNtfns(trace[n].0, trace[n].1, msgs[n], c)
  {
    RunNtfnsPrefix(trace, next, msgs, n, c);
    TraceExtend(trace, msgs, n, next);
  }

  lemma TraceExtend(
    trace: seq<(Index<OutPoint>, Index<string>)>, msgs: seq<Msg>, n: nat, next: (Index<OutPoint>, Index<string>))
    requires n < |msgs| && IsTrace(trace, msgs, n) && IsStep(trace[n], next, msgs[n])
    ensures IsTrace(trace + [next], msgs, n + 1)
  {
    var longer := trace + [next];
    forall i | 0 <= i < n + 1
      ensures IsStep(longer[i], longer[i + 1], msgs[i])
    {
      assert i < n ==> longer[i] == trace[i] && longer[i + 1] == trace[i + 1];
    }
  }

  lemma {:induction false} RunNtfnsPrefix(
    trace: seq<(Index<OutPoint>, Index<string>)>, next: (Index<OutPoint>, Index<string>), msgs: seq<Msg>, n: nat,
    c: ClientId)
    requires n <= |msgs| && n < |trace|
    ensures RunNtfns(trace + [next], msgs, n, c) == RunNtfns(trace, msgs, n, c)
  {
    if n > 0 {
      RunNtfnsPrefix(trace, next, msgs, n - 1, c);
    }
  }

  /** A queue that has grown by memory pool spends only. */
  lemma OnlySpends(before: seq<Ntfn>, after: seq<Ntfn>)
    requires before <= after && forall n :: n in multiset(after[|before|..]) ==> IsMempoolSpend(n)
    ensures Plain(after) == Plain(before)
    decreases |after|
  {
    if before != after {
      var front := after[..|after| - 1];
      var last := after[|after| - 1];
      assert after[|before|..] == front[|before|..] + [last];
      OnlySpends(before, front);
    }
  }

  predicate JoinsOrLeaves(msg: Msg) {
    || msg.RegisterBlocks? || msg.UnregisterBlocks? || msg.RegisterClient?
    || msg.RegisterMempool? || msg.UnregisterMempool?
  }

  /** Client d watches `op` after the message. */
  ghost predicate SpentAfter(spent: Index<OutPoint>, addr: Index<string>, msg: Msg, op: OutPoint, d: ClientId) {
    match msg
    case BlockConnected(block, _) => Watching(spent, addr, block.txs, |block.txs|, op, d)
    case TxAccepted(tx, _) => Watches(spent, op, d) || Registers(addr, tx, |tx.outs|, op, d)
    case RegisterSpent(c, ops, _) => Watches(spent, op, d) || (op in ops && d == c)
    case UnregisterSpent(c, gone) => Watches(spent, op, d) && !(op == gone && d == c)
    case UnregisterClient(c) => Watches(spent, op, d) && d != c
    case _ => Watches(spent, op, d)
  }

  /** Client d watches address a after the message. */
  ghost predicate AddrAfter(addr: Index<string>, msg: Msg, a: string, d: ClientId) {
    match msg
    case RegisterAddr(c, addrs) => Watches(addr, a, d) || (a in addrs && d == c)
    case UnregisterAddr(c, gone) => Watches(addr, a, d) && !(a == gone && d == c)
    case UnregisterClient(c) => Watches(addr, a, d) && d != c
    case _ => Watches(addr, a, d)
  }

  function Leaves(msg: Msg, leaves: bool): set<ClientId>
    requires leaves ==> !msg.BlockConnected? && !msg.TxAccepted?
  {
    if leaves then {msg.c} else {}
  }

  /** A set of clients after a message that joins one to it, if it does. */
  function SetAfter(before: set<ClientId>, msg: Msg, joins: bool): set<ClientId>
    requires joins ==> !msg.BlockConnected? && !msg.TxAccepted?
  {
    (if joins then before + {msg.c} else before) - Leaves(msg, msg.UnregisterClient?)
  }

  ghost function Told(tx: Tx, block: Option<Hash>, redeems: bool, paid: bool): seq<Ntfn> {
    (if redeems then [Redeeming(tx, block)] else []) + (if paid then [Recv(tx, block)] else [])
  }

  /** What a transaction does to the watches: those on its inputs go when it is confirmed, then
      its visits register what it pays. */
  ghost predicate TxDone(
    before: Index<OutPoint>, after: Index<OutPoint>, round: Round, addr: Index<string>, tx: Tx, confirmed: bool)
  {
    && AreVisits(round.visits, addr, tx, |tx.outs|)
    && (forall op, c :: Watches(round.spent, op, c) <==> Watches(before, op, c) && !(confirmed && op in Spent(tx.ins)))
    && (forall op, c :: Watches(after, op, c) <==>
          Watches(round.spent, op, c) || Registers(addr, tx, |tx.outs|, op, c))
  }

  /** Round k of a block: it starts from the watches of the fold that the inputs leave, and visits
      the clients that are paid. */
  ghost predicate IsRound(round: Round, spent: Index<OutPoint>, addr: Index<string>, txs: seq<Tx>, k: nat)
    requires k < |txs|
  {
    && AreVisits(round.visits, addr, txs[k], |txs[k].outs|)
    && forall op, c :: Watches(round.spent, op, c) <==>
         Watching(spent, addr, txs, k, op, c) && op !in Spent(txs[k].ins)
  }

  ghost predicate AreRounds(rounds: seq<Round>, spent: Index<OutPoint>, addr: Index<string>, txs: seq<Tx>, n: nat)
    requires n <= |txs|
  {
    |rounds| == n && forall k :: 0 <= k < n ==> IsRound(rounds[k], spent, addr, txs, k)
  }

  lemma RoundsStep(
    rounds: seq<Round>, more: Round, spent: Index<OutPoint>, addr: Index<string>, txs: seq<Tx>, n: nat)
    requires n < |txs| && AreRounds(rounds, spent, addr, txs, n) && IsRound(more, spent, addr, txs, n)
    ensures AreRounds(rounds + [more], spent, addr, txs, n + 1)
  {
    forall k | 0 <= k < n + 1
      ensures IsRound((rounds + [more])[k], spent, addr, txs, k)
    {
      assert k < n ==> IsRound(rounds[k], spent, addr, txs, k);
    }
  }

  /** What client c is told of the memory pool during the first n rounds. */
  ghost function RoundSpends(pool: Pool, rounds: seq<Round>, n: nat, c: ClientId): seq<Tx>
    requires n <= |rounds|
  {
    if n == 0 then []
    else RoundSpends(pool, rounds, n - 1, c) + VisitSpends(rounds[n - 1].spent, pool, rounds[n - 1].visits, c)
  }

  /** More rounds do not change what was told before. */
  lemma {:induction false} RoundSpendsPrefix(pool: Pool, rounds: seq<Round>, more: Round, n: nat, c: ClientId)
    requires n <= |rounds|
    ensures RoundSpends(pool, rounds + [more], n, c) == RoundSpends(pool, rounds, n, c)
  {
    if n > 0 {
      RoundSpendsPrefix(pool, rounds, more, n - 1, c);
    }
  }

  lemma OneMoreRound(pool: Pool, rounds: seq<Round>, more: Round, c: ClientId)
    ensures RoundSpends(pool, rounds + [more], |rounds| + 1, c)
         == RoundSpends(pool, rounds, |rounds|, c) + VisitSpends(more.spent, pool, more.visits, c)
  {
    RoundSpendsPrefix(pool, rounds, more, |rounds|, c);
  }

  lemma TimesAppend(visits: seq<(OutPoint, ClientId)>, more: (OutPoint, ClientId), op: OutPoint, c: ClientId)
    ensures Times(visits + [more], op, c) == Times(visits, op, c) + if more == (op, c) then 1 else 0
  {
    assert (visits + [more])[..|visits|] == visits;
  }

  lemma VisitsToAppend(visits: seq<(OutPoint, ClientId)>, more: (OutPoint, ClientId), ops: set<OutPoint>)
    ensures VisitsTo(visits + [more], ops) == VisitsTo(visits, ops) + if more.0 in ops then 1 else 0
  {
    assert (visits + [more])[..|visits|] == visits;
  }

  lemma {:induction false} VisitedTimes(visits: seq<(OutPoint, ClientId)>, op: OutPoint, c: ClientId)
    ensures (op, c) in visits <==> Times(visits, op, c) > 0
    decreases |visits|
  {
    if visits != [] {
      var front := visits[..|visits| - 1];
      VisitedTimes(front, op, c);
      assert visits == front + [visits[|visits| - 1]];
    }
  }

  /** Some clients were visited once more for `at`. */
  ghost predicate Visited(
    before: seq<(OutPoint, ClientId)>, after: seq<(OutPoint, ClientId)>, at: OutPoint, cs: set<ClientId>)
  {
    && (forall op, c :: Times(after, op, c) == Times(before, op, c) + if op == at && c in cs then 1 else 0)
    && (forall ops :: VisitsTo(after, ops) == VisitsTo(before, ops) + if at in ops then |cs| else 0)
  }

  lemma VisitedStep(
    before: seq<(OutPoint, ClientId)>, visits: seq<(OutPoint, ClientId)>, at: OutPoint, cs: set<ClientId>, c: ClientId)
    requires Visited(before, visits, at, cs) && c !in cs
    ensures Visited(before, visits + [(at, c)], at, cs + {c})
  {
    forall op, d
      ensures Times(visits + [(at, c)], op, d) == Times(before, op, d) + if op == at && d in cs + {c} then 1 else 0
    {
      TimesAppend(visits, (at, c), op, d);
    }
    forall ops
      ensures VisitsTo(visits + [(at, c)], ops) == VisitsTo(before, ops) + if at in ops then |cs + {c}| else 0
    {
      VisitsToAppend(visits, (at, c), ops);
    }
  }

  /** The first n addresses of an output were visited. */
  ghost predicate OutputVisited(
    before: seq<(OutPoint, ClientId)>, after: seq<(OutPoint, ClientId)>, addr: Index<string>, out: TxOut,
    at: OutPoint, n: nat)
    requires n <= |out.addrs|
  {
    && (forall op, c ::
          Times(after, op, c) == Times(before, op, c) + if op == at then PathsWithin(addr, out, n, c) else 0)
    && (forall ops ::
          VisitsTo(after, ops) == VisitsTo(before, ops) + if at in ops then PayeesWithin(addr, out, n) else 0)
  }

  lemma OutputUnvisited(visits: seq<(OutPoint, ClientId)>, addr: Index<string>, out: TxOut, at: OutPoint)
    ensures OutputVisited(visits, visits, addr, out, at, 0)
  {
    forall c
      ensures PathsWithin(addr, out, 0, c) == 0
    {
    }
  }

  lemma Unvisited(addr: Index<string>, tx: Tx)
    ensures AreVisits([], addr, tx, 0)
  {
    forall op, c
      ensures Paths(addr, tx, 0, op, c) == Times([], op, c)
    {
    }
    forall ops
      ensures Payees(addr, tx, 0, ops) == VisitsTo([], ops)
    {
    }
  }

  lemma OutputVisitedStep(
    before: seq<(OutPoint, ClientId)>, visits: seq<(OutPoint, ClientId)>, after: seq<(OutPoint, ClientId)>,
    addr: Index<string>, out: TxOut, at: OutPoint, n: nat)
    requires n < |out.addrs| && OutputVisited(before, visits, addr, out, at, n)
    requires Visited(visits, after, at, Watchers(addr, out.addrs[n].encoded))
    ensures OutputVisited(before, after, addr, out, at, n + 1)
  {
  }

  lemma VisitsStep(
    before: seq<(OutPoint, ClientId)>, after: seq<(OutPoint, ClientId)>, addr: Index<string>, tx: Tx, i: nat)
    requires i < |tx.outs| && AreVisits(before, addr, tx, i)
    requires OutputVisited(before, after, addr, tx.outs[i], OutPointAt(tx, i),
                           if tx.outs[i].malformed then 0 else |tx.outs[i].addrs|)
    ensures AreVisits(after, addr, tx, i + 1)
  {
  }

  lemma NobodyVisited(addr: Index<string>, tx: Tx)
    requires addr.watchers == map[]
    ensures AreVisits([], addr, tx, |tx.outs|)
  {
    forall op, c
      ensures Times([], op, c) == Paths(addr, tx, |tx.outs|, op, c)
    {
      NoPaths(addr, tx, |tx.outs|, op, c);
    }
    forall ops
      ensures VisitsTo([], ops) == Payees(addr, tx, |tx.outs|, ops)
    {
      NoPayees(addr, tx, |tx.outs|, ops);
    }
  }

  lemma {:induction false} NoPayees(addr: Index<string>, tx: Tx, n: nat, ops: set<OutPoint>)
    requires addr.watchers == map[] && n <= |tx.outs|
    ensures Payees(addr, tx, n, ops) == 0
  {
    if n > 0 {
      NoPayees(addr, tx, n - 1, ops);
      NoPayeesWithin(addr, tx.outs[n - 1], |tx.outs[n - 1].addrs|);
    }
  }

  lemma {:induction false} NoPayeesWithin(addr: Index<string>, out: TxOut, n: nat)
    requires addr.watchers == map[] && n <= |out.addrs|
    ensures PayeesWithin(addr, out, n) == 0
  {
    if n > 0 {
      NoPayeesWithin(addr, out, n - 1);
    }
  }

  lemma {:induction false} NoPaths(addr: Index<string>, tx: Tx, n: nat, op: OutPoint, c: ClientId)
    requires addr.watchers == map[] && n <= |tx.outs|
    ensures Paths(addr, tx, n, op, c) == 0
  {
    if n > 0 {
      NoPaths(addr, tx, n - 1, op, c);
      NoPathsWithin(addr, tx.outs[n - 1], |tx.outs[n - 1].addrs|, c);
    }
  }

  lemma {:induction false} NoPathsWithin(addr: Index<string>, out: TxOut, n: nat, c: ClientId)
    requires addr.watchers == map[] && n <= |out.addrs|
    ensures PathsWithin(addr, out, n, c) == 0
  {
    if n > 0 {
      NoPathsWithin(addr, out, n - 1, c);
    }
  }

  lemma NobodyPaid(addr: Index<string>, tx: Tx)
    requires addr.watchers == map[]
    ensures forall op, c :: !Registers(addr, tx, |tx.outs|, op, c)
    ensures forall c :: !IsPaid(addr, tx, |tx.outs|, c)
  {
  }

  /** The index holds the watches of the fold after n transactions. */
  ghost predicate Follows(
    spent: Index<OutPoint>, spent0: Index<OutPoint>, addr: Index<string>, txs: seq<Tx>, n: nat)
    requires n <= |txs|
  {
    forall op, c :: Watches(spent, op, c) <==> Watching(spent0, addr, txs, n, op, c)
  }

  /** What holds after n transactions of a block. */
  ghost predicate SoFar(
    spent0: Index<OutPoint>, addr: Index<string>, base: seq<Ntfn>, spent: Index<OutPoint>, q: seq<Ntfn>,
    block: Block, pool: Pool, rounds: seq<Round>, n: nat, me: ClientId)
    requires n <= |block.txs|
  {
    && Follows(spent, spent0, addr, block.txs, n)
    && AreRounds(rounds, spent0, addr, block.txs, n)
    && InBlock(base, q, BlockNtfns(spent0, addr, block, n, me), RoundSpends(pool, rounds, n, me))
  }

  lemma NothingSoFar(spent: Index<OutPoint>, addr: Index<string>, q: seq<Ntfn>, block: Block, pool: Pool, me: ClientId)
    ensures SoFar(spent, addr, q, spent, q, block, pool, [], 0, me)
  {
  }

  lemma FollowsStep(
    before: Index<OutPoint>, spent: Index<OutPoint>, round: Round, spent0: Index<OutPoint>, addr: Index<string>,
    txs: seq<Tx>, n: nat)
    requires n < |txs| && Follows(before, spent0, addr, txs, n)
    requires TxDone(before, spent, round, addr, txs[n], true)
    ensures Follows(spent, spent0, addr, txs, n + 1) && IsRound(round, spent0, addr, txs, n)
  {
  }

  /** A queue that has grown by some notifications and some memory pool spends. */
  ghost predicate InBlock(base: seq<Ntfn>, q: seq<Ntfn>, told: seq<Ntfn>, spends: seq<Tx>) {
    base <= q && Plain(q) == Plain(base) + told && SpendList(q) == SpendList(base) + spends
  }

  /** What the next transaction of a block adds to a queue. */
  lemma ToldStep(
    spent0: Index<OutPoint>, addr: Index<string>, before: Index<OutPoint>, block: Block, n: nat, pool: Pool,
    rounds: seq<Round>, round: Round, base: seq<Ntfn>, q: seq<Ntfn>, after: seq<Ntfn>, me: ClientId)
    requires n < |block.txs| && |rounds| == n && Follows(before, spent0, addr, block.txs, n) && q <= after
    requires InBlock(base, q, BlockNtfns(spent0, addr, block, n, me), RoundSpends(pool, rounds, n, me))
    requires Plain(after) == Plain(q) + Told(block.txs[n], Some(block.hash), WatchesInput(before, block.txs[n].ins, me),
                                             IsPaid(addr, block.txs[n], |block.txs[n].outs|, me))
    requires SpendList(after) == SpendList(q) + VisitSpends(round.spent, pool, round.visits, me)
    ensures InBlock(base, after, BlockNtfns(spent0, addr, block, n + 1, me),
                    RoundSpends(pool, rounds + [round], n + 1, me))
  {
    var told := Told(block.txs[n], Some(block.hash), WatchesInput(before, block.txs[n].ins, me),
                     IsPaid(addr, block.txs[n], |block.txs[n].outs|, me));
    BlockStep(spent0, addr, before, block, n, me);
    OneMoreRound(pool, rounds, round, me);
    InBlockStep(base, q, after, BlockNtfns(spent0, addr, block, n, me), told,
                RoundSpends(pool, rounds, n, me), VisitSpends(round.spent, pool, round.visits, me));
  }

  lemma InBlockStep(
    base: seq<Ntfn>, q: seq<Ntfn>, after: seq<Ntfn>, told: seq<Ntfn>, more: seq<Ntfn>, spends: seq<Tx>,
    moreSpends: seq<Tx>)
    requires InBlock(base, q, told, spends) && q <= after
    requires Plain(after) == Plain(q) + more && SpendList(after) == SpendList(q) + moreSpends
    ensures InBlock(base, after, told + more, spends + moreSpends)
  {
    AppendAssoc(Plain(base), told, more);
    AppendAssoc(SpendList(base), spends, moreSpends);
  }

  /** Indexes with the same watches lead to the same spends. */
  lemma {:induction false} SameVisitSpends(
    a: Index<OutPoint>, b: Index<OutPoint>, pool: Pool, visits: seq<(OutPoint, ClientId)>, c: ClientId)
    requires forall op, d :: Watches(a, op, d) <==> Watches(b, op, d)
    ensures VisitSpends(a, pool, visits, c) == VisitSpends(b, pool, visits, c)
    decreases |visits|
  {
    if visits != [] {
      SameVisitSpends(a, b, pool, visits[..|visits| - 1], c);
    }
  }

  lemma {:induction false} NoRounds(
    spent: Index<OutPoint>, addr: Index<string>, block: Block, pool: Pool, n: nat, c: ClientId)
    returns (rounds: seq<Round>)
    requires spent.watchers == map[] && addr.watchers == map[] && n <= |block.txs|
    ensures AreRounds(rounds, spent, addr, block.txs, n) && RoundSpends(pool, rounds, n, c) == []
  {
    if n == 0 {
      return [];
    }
    var front := NoRounds(spent, addr, block, pool, n - 1, c);
    NoRound(spent, addr, block, n - 1, c);
    OneMoreRound(pool, front, Round(spent, []), c);
    RoundsStep(front, Round(spent, []), spent, addr, block.txs, n - 1);
    rounds := front + [Round(spent, [])];
  }

  lemma NoRound(spent: Index<OutPoint>, addr: Index<string>, block: Block, k: nat, c: ClientId)
    requires spent.watchers == map[] && addr.watchers == map[] && k < |block.txs|
    ensures IsRound(Round(spent, []), spent, addr, block.txs, k)
  {
    NobodyVisited(addr, block.txs[k]);
    NothingWatched(spent, addr, block, k, c);
  }

  /** One transaction of the fold. */
  lemma BlockStep(
    spent0: Index<OutPoint>, addr: Index<string>, spent: Index<OutPoint>, block: Block, n: nat, me: ClientId)
    requires n < |block.txs| && Follows(spent, spent0, addr, block.txs, n)
    ensures WatchesInput(spent, block.txs[n].ins, me) <==> Redeems(spent0, addr, block.txs, n, me)
    ensures BlockNtfns(spent0, addr, block, n + 1, me) == BlockNtfns(spent0, addr, block, n, me) +
      Told(block.txs[n], Some(block.hash), WatchesInput(spent, block.txs[n].ins, me),
           IsPaid(addr, block.txs[n], |block.txs[n].outs|, me))
  {
    var ins := block.txs[n].ins;
    if WatchesInput(spent, ins, me) {
      var i :| 0 <= i < |ins| && Watches(spent, ins[i].prev, me);
      assert Watching(spent0, addr, block.txs, n, ins[i].prev, me);
    }
    if Redeems(spent0, addr, block.txs, n, me) {
      var i :| 0 <= i < |ins| && Watching(spent0, addr, block.txs, n, ins[i].prev, me);
      assert Watches(spent, ins[i].prev, me);
    }
  }

  lemma {:induction false} NothingWatched(
    spent: Index<OutPoint>, addr: Index<string>, block: Block, n: nat, me: ClientId)
    requires spent.watchers == map[] && addr.watchers == map[] && n <= |block.txs|
    ensures forall op, c :: !Watching(spent, addr, block.txs, n, op, c)
    ensures BlockNtfns(spent, addr, block, n, me) == []
  {
    if n > 0 {
      NothingWatched(spent, addr, block, n - 1, me);
      NobodyPaid(addr, block.txs[n - 1]);
    }
  }

  // ---- Inputs ----

  /** After the first i inputs: their watchers are notified and, for a confirmed
      transaction, the watches on them are gone. */
  ghost predicate AfterInputs(
    first: Index<OutPoint>, now: Index<OutPoint>, ins: seq<TxIn>, i: nat, confirmed: bool, notified: set<ClientId>)
    requires i <= |ins|
  {
    && (forall op, c :: Watches(now, op, c) <==> Watches(first, op, c) && !(confirmed && SpentWithin(ins, i, op)))
    && (forall c :: c in notified <==> WatchesWithin(first, ins, i, c))
  }

  predicate SpentWithin(ins: seq<TxIn>, i: nat, op: OutPoint)
    requires i <= |ins|
  {
    exists k :: 0 <= k < i && ins[k].prev == op
  }

  predicate WatchesWithin(spent: Index<OutPoint>, ins: seq<TxIn>, i: nat, c: ClientId)
    requires i <= |ins|
  {
    exists k :: 0 <= k < i && Watches(spent, ins[k].prev, c)
  }

  lemma InputStep(
    first: Index<OutPoint>, before: Index<OutPoint>, after: Index<OutPoint>, ins: seq<TxIn>, i: nat, confirmed: bool,
    told: set<ClientId>, notified: set<ClientId>)
    requires i < |ins| && AfterInputs(first, before, ins, i, confirmed, told)
    requires forall op, c :: Watches(after, op, c) <==> Watches(before, op, c) && !(confirmed && op == ins[i].prev)
    requires notified == told + Watchers(before, ins[i].prev)
    ensures AfterInputs(first, after, ins, i + 1, confirmed, notified)
  {
    var prev := ins[i].prev;
    forall op ensures SpentWithin(ins, i + 1, op) <==> SpentWithin(ins, i, op) || op == prev {
      if op == prev {
        assert ins[i].prev == op;
      }
    }
    forall c ensures c in notified <==> WatchesWithin(first, ins, i + 1, c) {
      assert WatchesWithin(first, ins, i + 1, c) <==> WatchesWithin(first, ins, i, c) || Watches(first, prev, c);
      assert c in Watchers(before, prev) <==> Watches(before, prev, c);
      if Watches(first, prev, c) && SpentWithin(ins, i, prev) {
        assert WatchesWithin(first, ins, i, c);
      }
    }
  }

  lemma AllInputs(
    first: Index<OutPoint>, now: Index<OutPoint>, ins: seq<TxIn>, confirmed: bool, notified: set<ClientId>)
    requires AfterInputs(first, now, ins, |ins|, confirmed, notified)
    ensures forall op, c :: Watches(now, op, c) <==> Watches(first, op, c) && !(confirmed && op in Spent(ins))
    ensures forall c :: c in notified <==> WatchesInput(first, ins, c)
  {
    forall op ensures SpentWithin(ins, |ins|, op) <==> op in Spent(ins) {
      if op in Spent(ins) {
        SpentAt(ins, op);
      }
    }
  }

  lemma SpentAt(ins: seq<TxIn>, op: OutPoint)
    requires op in Spent(ins)
    ensures exists k :: 0 <= k < |ins| && ins[k].prev == op
  {
    var txin :| txin in ins && txin.prev == op;
    var k :| 0 <= k < |ins| && ins[k] == txin;
  }

  // ---- Memory pool spends ----

  /** The spends outside `todo` were told, once each, if the client watches them. */
  ghost predicate ToldOnce(
    news: seq<Ntfn>, spent: Index<OutPoint>, spends: map<Hash, Tx>, todo: set<Hash>, me: ClientId)
  {
    forall n ::
      multiset(news)[n] ==
      if IsMempoolSpend(n) && n.tx.hash in spends && n.tx.hash !in todo && spends[n.tx.hash] == n.tx &&
         WatchesInput(spent, n.tx.ins, me) then 1 else 0
  }

  lemma ToldOneMore(
    news: seq<Ntfn>, spent: Index<OutPoint>, spends: map<Hash, Tx>, todo: set<Hash>, h: Hash, me: ClientId)
    requires ToldOnce(news, spent, spends, todo, me) && h in todo && h in spends && spends[h].hash == h
    ensures ToldOnce(
      if WatchesInput(spent, spends[h].ins, me) then news + [Redeeming(spends[h], None)] else news,
      spent, spends, todo - {h}, me)
  {
  }

  lemma SingleSpend(
    before: seq<Ntfn>, after: seq<Ntfn>, spent: Index<OutPoint>, pool: Pool, op: OutPoint, me: ClientId)
    requires before <= after
    requires forall n ::
      multiset(after[|before|..])[n] ==
      if IsMempoolSpend(n) && PoolSpend(pool, [op], n.tx) && WatchesInput(spent, n.tx.ins, me) then 1 else 0
    ensures after == before + SpendFor(spent, pool, op, me)
  {
    var news, want := after[|before|..], SpendFor(spent, pool, op, me);
    forall tx ensures PoolSpend(pool, [op], tx) <==> op in pool && pool[op] == tx {
      if op in pool && pool[op] == tx {
        assert [op][0] in pool && pool[[op][0]] == tx;
      }
    }
    assert multiset(news) == multiset(want);
    SameShortList(news, want);
    assert after == before + news;
  }

  lemma SameShortList(a: seq<Ntfn>, b: seq<Ntfn>)
    requires multiset(a) == multiset(b) && |b| <= 1
    ensures a == b
  {
    assert |a| == |multiset(a)| == |multiset(b)| == |b|;
    if |b| == 1 {
      assert a == [a[0]] && b == [b[0]];
      assert a[0] in multiset(b);
    }
  }

  // ---- Outputs ----

  /** What holds between two client visits of NotifyForTxOuts: `visits` were made so far, `base`
      and `q` are the queue of `me` at the start and now. */
  ghost predicate OutsInv(
    spent0: Index<OutPoint>, base: seq<Ntfn>, spent: Index<OutPoint>, q: seq<Ntfn>, n: Ntfn, pool: Pool,
    notified: set<ClientId>, visits: seq<(OutPoint, ClientId)>, me: ClientId)
  {
    && Valid(spent)
    && (forall op, c :: Watches(spent, op, c) <==> Watches(spent0, op, c) || (op, c) in visits)
    && (forall c :: c in notified <==> exists op :: (op, c) in visits)
    && base <= q
    && Plain(q) == (if me in notified then Plain(base) + [n] else Plain(base))
    && SpendList(q) == SpendList(base) + VisitSpends(spent0, pool, visits, me)
  }

  /** When all outputs are done, the visits are the registrations. */
  lemma OutsDone(
    spent0: Index<OutPoint>, base: seq<Ntfn>, spent: Index<OutPoint>, q: seq<Ntfn>, n: Ntfn, pool: Pool,
    notified: set<ClientId>, visits: seq<(OutPoint, ClientId)>, me: ClientId, addr: Index<string>, tx: Tx)
    requires OutsInv(spent0, base, spent, q, n, pool, notified, visits, me)
    requires AreVisits(visits, addr, tx, |tx.outs|)
    ensures forall op, c :: Watches(spent, op, c) <==> Watches(spent0, op, c) || Registers(addr, tx, |tx.outs|, op, c)
    ensures Plain(q) == if IsPaid(addr, tx, |tx.outs|, me) then Plain(base) + [n] else Plain(base)
  {
    AllVisited(visits, addr, tx);
    PaidMeansRegistered(addr, tx, me);
    assert me in notified <==> IsPaid(addr, tx, |tx.outs|, me);
  }

  lemma PaidKeepsInv(
    spent0: Index<OutPoint>, base: seq<Ntfn>, spent1: Index<OutPoint>, before: seq<Ntfn>, spent: Index<OutPoint>,
    after: seq<Ntfn>, n: Ntfn, pool: Pool, told: set<ClientId>, visits: seq<(OutPoint, ClientId)>, c: ClientId,
    op: OutPoint, me: ClientId)
    requires OutsInv(spent0, base, spent1, before, n, pool, told, visits, me) && n.Recv?
    requires Valid(spent)
    requires forall p, d :: Watches(spent, p, d) <==> Watches(spent1, p, d) || (p in [op] && d == c)
    requires var q := before + SpendFor(spent, pool, op, me); after == if c == me && c !in told then q + [n] else q
    ensures OutsInv(spent0, base, spent, after, n, pool, told + {c}, visits + [(op, c)], me)
  {
    RegisteredClients(told, visits, c, op);
    OneMoreWatch(spent0, spent1, spent, visits, c, op);
    OneMoreVisit(spent0, spent, pool, visits, c, op, me);
    var spend := SpendFor(spent, pool, op, me);
    PaidKeepsQueue(base, before, after, n, spend, VisitSpends(spent0, pool, visits, me), me in told, c == me);
  }

  lemma PaidKeepsQueue(
    base: seq<Ntfn>, before: seq<Ntfn>, after: seq<Ntfn>, n: Ntfn, spend: seq<Ntfn>, told: seq<Tx>,
    known: bool, mine: bool)
    requires base <= before && n.Recv? && |spend| <= 1 && forall s :: s in spend ==> IsMempoolSpend(s)
    requires Plain(before) == if known then Plain(base) + [n] else Plain(base)
    requires SpendList(before) == SpendList(base) + told
    requires after == if mine && !known then before + spend + [n] else before + spend
    ensures base <= after
    ensures Plain(after) == if known || mine then Plain(base) + [n] else Plain(base)
    ensures SpendList(after) == SpendList(base) + (told + if spend == [] then [] else [spend[0].tx])
  {
    PaidQueue(base, before, after, spend, n, mine && !known);
    AppendAssoc(SpendList(base), told, if spend == [] then [] else [spend[0].tx]);
  }

  /** What one visit does to the queue. */
  lemma PaidQueue(base: seq<Ntfn>, before: seq<Ntfn>, after: seq<Ntfn>, spend: seq<Ntfn>, n: Ntfn, tell: bool)
    requires base <= before && n.Recv? && |spend| <= 1 && forall s :: s in spend ==> IsMempoolSpend(s)
    requires after == if tell then before + spend + [n] else before + spend
    ensures base <= after
    ensures Plain(after) == if tell then Plain(before) + [n] else Plain(before)
    ensures SpendList(after) == if spend == [] then SpendList(before) else SpendList(before) + [spend[0].tx]
  {
    var q := before + spend;
    if spend == [] {
      assert q == before;
    } else {
      assert spend == [spend[0]];
      QueueAppend(before, spend[0]);
    }
    if tell {
      QueueAppend(q, n);
    }
  }

  lemma OneMoreWatch(
    spent0: Index<OutPoint>, spent1: Index<OutPoint>, spent: Index<OutPoint>, visits: seq<(OutPoint, ClientId)>,
    c: ClientId, op: OutPoint)
    requires forall p, d :: Watches(spent1, p, d) <==> Watches(spent0, p, d) || (p, d) in visits
    requires forall p, d :: Watches(spent, p, d) <==> Watches(spent1, p, d) || (p in [op] && d == c)
    ensures forall p, d :: Watches(spent, p, d) <==> Watches(spent0, p, d) || (p, d) in visits + [(op, c)]
  {
    forall p, d
      ensures Watches(spent, p, d) <==> Watches(spent0, p, d) || (p, d) in visits + [(op, c)]
    {
      assert (p, d) in visits + [(op, c)] <==> (p, d) in visits || (p, d) == (op, c);
    }
  }

  /** A visit tells of the pool's spend exactly when an input of it is then watched. */
  lemma OneMoreVisit(
    spent0: Index<OutPoint>, spent: Index<OutPoint>, pool: Pool, visits: seq<(OutPoint, ClientId)>, c: ClientId,
    op: OutPoint, me: ClientId)
    requires forall p, d :: Watches(spent, p, d) <==> Watches(spent0, p, d) || (p, d) in visits || (p == op && d == c)
    ensures VisitSpends(spent0, pool, visits + [(op, c)], me)
         == VisitSpends(spent0, pool, visits, me) + if SpendFor(spent, pool, op, me) == [] then [] else [pool[op]]
  {
    var more := visits + [(op, c)];
    assert more[..|more| - 1] == visits && more[|more| - 1] == (op, c);
    if op in pool {
      SameWatches(spent0, spent, more, pool[op].ins, me);
    }
  }

  lemma SameWatches(
    spent0: Index<OutPoint>, spent: Index<OutPoint>, visits: seq<(OutPoint, ClientId)>, ins: seq<TxIn>, c: ClientId)
    requires forall p, d :: Watches(spent, p, d) <==> Watches(spent0, p, d) || (p, d) in visits
    ensures WatchesThen(spent0, visits, ins, c) <==> WatchesInput(spent, ins, c)
  {
    if i :| 0 <= i < |ins| && Watches(spent, ins[i].prev, c) {
      assert Watches(spent0, ins[i].prev, c) || (ins[i].prev, c) in visits;
    }
    if i :| 0 <= i < |ins| && (Watches(spent0, ins[i].prev, c) || (ins[i].prev, c) in visits) {
      assert Watches(spent, ins[i].prev, c);
    }
  }

  /** A client that is visited for an output is told of the pool's spend of it. */
  lemma {:induction false} VisitedIsTold(
    spent: Index<OutPoint>, pool: Pool, visits: seq<(OutPoint, ClientId)>, op: OutPoint, c: ClientId)
    requires ValidPool(pool) && (op, c) in visits && op in pool
    ensures pool[op] in VisitSpends(spent, pool, visits, c)
    decreases |visits|
  {
    var front := visits[..|visits| - 1];
    assert visits == front + [visits[|visits| - 1]];
    if (op, c) in front {
      VisitedIsTold(spent, pool, front, op, c);
    } else {
      SpentAt(pool[op].ins, op);
      var i :| 0 <= i < |pool[op].ins| && pool[op].ins[i].prev == op;
      assert (pool[op].ins[i].prev, c) in visits;
    }
  }

  // ---- How often a memory pool spend is told ----

  function CountTx(list: seq<Tx>, s: Tx): nat {
    if list == [] then 0 else CountTx(list[..|list| - 1], s) + if list[|list| - 1] == s then 1 else 0
  }

  lemma CountTxAppend(list: seq<Tx>, t: Tx, s: Tx)
    ensures CountTx(list + [t], s) == CountTx(list, s) + if t == s then 1 else 0
  {
    assert (list + [t])[..|list|] == list;
  }

  /** The outpoints that the pool spends by s. */
  function SpentBy(pool: Pool, s: Tx): set<OutPoint> {
    set op | op in pool && pool[op] == s
  }

  /** Visit k is for an output spent by s, and client c by then watches an input of s. */
  ghost predicate TellsAt(
    spent: Index<OutPoint>, pool: Pool, visits: seq<(OutPoint, ClientId)>, k: nat, s: Tx, c: ClientId)
    requires k < |visits|
  {
    visits[k].0 in SpentBy(pool, s) && WatchesThen(spent, visits[..k + 1], s.ins, c)
  }

  lemma CountStep(spent: Index<OutPoint>, pool: Pool, visits: seq<(OutPoint, ClientId)>, s: Tx, c: ClientId)
    requires visits != []
    ensures
      var n := |visits| - 1;
      CountTx(VisitSpends(spent, pool, visits, c), s)
      == CountTx(VisitSpends(spent, pool, visits[..n], c), s) + if TellsAt(spent, pool, visits, n, s, c) then 1 else 0
  {
    var n := |visits| - 1;
    var op, front := visits[n].0, VisitSpends(spent, pool, visits[..n], c);
    assert visits[..n + 1] == visits;
    if op in pool && WatchesThen(spent, visits, pool[op].ins, c) {
      CountTxAppend(front, pool[op], s);
    } else {
      assert front + [] == front;
    }
  }

  /** Watches are not lost between visits. */
  lemma WatchesLater(
    spent: Index<OutPoint>, visits: seq<(OutPoint, ClientId)>, k: nat, j: nat, ins: seq<TxIn>, c: ClientId)
    requires k <= j <= |visits| && WatchesThen(spent, visits[..k], ins, c)
    ensures WatchesThen(spent, visits[..j], ins, c)
  {
    var i :| 0 <= i < |ins| && (Watches(spent, ins[i].prev, c) || (ins[i].prev, c) in visits[..k]);
    if (ins[i].prev, c) in visits[..k] {
      var m :| 0 <= m < k && visits[..k][m] == (ins[i].prev, c);
      assert visits[..j][m] == (ins[i].prev, c);
    }
  }

  lemma TellsInFront(
    spent: Index<OutPoint>, pool: Pool, visits: seq<(OutPoint, ClientId)>, k: nat, s: Tx, c: ClientId)
    requires k + 1 < |visits|
    ensures TellsAt(spent, pool, visits[..|visits| - 1], k, s, c) <==> TellsAt(spent, pool, visits, k, s, c)
  {
    assert visits[..|visits| - 1][..k + 1] == visits[..k + 1];
  }

  /** A spend is told at all exactly when some visit tells of it. */
  lemma {:induction false} ToldIff(
    spent: Index<OutPoint>, pool: Pool, visits: seq<(OutPoint, ClientId)>, s: Tx, c: ClientId)
    ensures CountTx(VisitSpends(spent, pool, visits, c), s) > 0
       <==> exists k :: 0 <= k < |visits| && TellsAt(spent, pool, visits, k, s, c)
    decreases |visits|
  {
    if visits != [] {
      var n := |visits| - 1;
      var front := visits[..n];
      CountStep(spent, pool, visits, s, c);
      ToldIff(spent, pool, front, s, c);
      if k :| 0 <= k < n && TellsAt(spent, pool, front, k, s, c) {
        TellsInFront(spent, pool, visits, k, s, c);
      }
      if k :| 0 <= k < n && TellsAt(spent, pool, visits, k, s, c) {
        TellsInFront(spent, pool, visits, k, s, c);
      }
    }
  }

  /** Two visits for outputs spent by s, the first of which tells client c of it. */
  ghost predicate TellsTwice(
    spent: Index<OutPoint>, pool: Pool, visits: seq<(OutPoint, ClientId)>, i: nat, j: nat, s: Tx, c: ClientId)
  {
    i < j < |visits| && TellsAt(spent, pool, visits, i, s, c) && visits[j].0 in SpentBy(pool, s)
  }

  /** A client is told of a spend more than once exactly when two visits are for outputs that it
      spends and the client watches an input of it at the first of them. */
  lemma {:induction false} ToldAgainIff(
    spent: Index<OutPoint>, pool: Pool, visits: seq<(OutPoint, ClientId)>, s: Tx, c: ClientId)
    ensures CountTx(VisitSpends(spent, pool, visits, c), s) > 1
       <==> exists i: nat, j: nat :: TellsTwice(spent, pool, visits, i, j, s, c)
    decreases |visits|
  {
    if visits != [] {
      var n := |visits| - 1;
      var front := visits[..n];
      CountStep(spent, pool, visits, s, c);
      ToldAgainIff(spent, pool, front, s, c);
      ToldIff(spent, pool, front, s, c);
      if i: nat, j: nat :| TellsTwice(spent, pool, visits, i, j, s, c) {
        TellsInFront(spent, pool, visits, i, s, c);
        if j < n {
          assert TellsTwice(spent, pool, front, i, j, s, c);
        } else {
          WatchesLater(spent, visits, i + 1, n + 1, s.ins, c);
        }
      }
      if i: nat, j: nat :| TellsTwice(spent, pool, front, i, j, s, c) {
        TellsInFront(spent, pool, visits, i, s, c);
        assert TellsTwice(spent, pool, visits, i, j, s, c);
      }
      if TellsAt(spent, pool, visits, n, s, c) {
        if k :| 0 <= k < n && TellsAt(spent, pool, front, k, s, c) {
          TellsInFront(spent, pool, visits, k, s, c);
          assert TellsTwice(spent, pool, visits, k, n, s, c);
        }
      }
    }
  }

  /** In every order of the visits, a spend is told no more often than there are visits for the
      outputs it spends, and exactly so often to a client that watched an input of it before. */
  lemma {:induction false} ToldPerVisit(
    spent: Index<OutPoint>, pool: Pool, visits: seq<(OutPoint, ClientId)>, s: Tx, c: ClientId)
    ensures CountTx(VisitSpends(spent, pool, visits, c), s) <= VisitsTo(visits, SpentBy(pool, s))
    ensures WatchesInput(spent, s.ins, c) ==>
      CountTx(VisitSpends(spent, pool, visits, c), s) == VisitsTo(visits, SpentBy(pool, s))
    decreases |visits|
  {
    if visits != [] {
      var n := |visits| - 1;
      CountStep(spent, pool, visits, s, c);
      ToldPerVisit(spent, pool, visits[..n], s, c);
      if WatchesInput(spent, s.ins, c) {
        var i :| 0 <= i < |s.ins| && Watches(spent, s.ins[i].prev, c);
        assert WatchesThen(spent, visits[..n + 1], s.ins, c);
      }
    }
  }

  /** What a caller can tell from the watched addresses, the transaction and the pool: a spend of
      outputs that meet at most one watch is told at most once, and a client that watches an input
      of the spend beforehand is told once for every watch that its outputs meet. */
  lemma ToldByPayees(
    spent: Index<OutPoint>, addr: Index<string>, tx: Tx, pool: Pool, visits: seq<(OutPoint, ClientId)>, s: Tx,
    c: ClientId)
    requires AreVisits(visits, addr, tx, |tx.outs|)
    ensures
      var told := CountTx(VisitSpends(spent, pool, visits, c), s);
      var payees := Payees(addr, tx, |tx.outs|, SpentBy(pool, s));
      && told <= payees
      && (WatchesInput(spent, s.ins, c) ==> told == payees && (told <= 1 <==> payees <= 1))
  {
    ToldPerVisit(spent, pool, visits, s, c);
    assert VisitsTo(visits, SpentBy(pool, s)) == Payees(addr, tx, |tx.outs|, SpentBy(pool, s));
  }

  /** A client that is paid twice by outputs of s is told of s at least twice, in every order. */
  lemma PaidTwiceToldTwice(
    spent: Index<OutPoint>, addr: Index<string>, tx: Tx, pool: Pool, visits: seq<(OutPoint, ClientId)>, s: Tx,
    c: ClientId,
    a: OutPoint, b: OutPoint)
    requires ValidPool(pool) && AreVisits(visits, addr, tx, |tx.outs|)
    requires a != b && a in SpentBy(pool, s) && b in SpentBy(pool, s)
    requires Registers(addr, tx, |tx.outs|, a, c) && Registers(addr, tx, |tx.outs|, b, c)
    ensures CountTx(VisitSpends(spent, pool, visits, c), s) > 1
  {
    AllVisited(visits, addr, tx);
    VisitedTwiceToldTwice(spent, pool, visits, s, c, a, b);
  }

  lemma VisitedTwiceToldTwice(
    spent: Index<OutPoint>, pool: Pool, visits: seq<(OutPoint, ClientId)>, s: Tx, c: ClientId, a: OutPoint, b: OutPoint)
    requires ValidPool(pool) && (a, c) in visits && (b, c) in visits
    requires a != b && a in SpentBy(pool, s) && b in SpentBy(pool, s)
    ensures CountTx(VisitSpends(spent, pool, visits, c), s) > 1
  {
    var i :| 0 <= i < |visits| && visits[i] == (a, c);
    var j :| 0 <= j < |visits| && visits[j] == (b, c);
    OwnVisitTells(spent, pool, visits, i, s, c);
    OwnVisitTells(spent, pool, visits, j, s, c);
    ToldAgainIff(spent, pool, visits, s, c);
    assert if i < j then TellsTwice(spent, pool, visits, i, j, s, c) else TellsTwice(spent, pool, visits, j, i, s, c);
  }

  lemma OwnVisitTells(spent: Index<OutPoint>, pool: Pool, visits: seq<(OutPoint, ClientId)>, k: nat, s: Tx, c: ClientId)
    requires ValidPool(pool) && k < |visits| && visits[k].0 in SpentBy(pool, s) && visits[k].1 == c
    ensures TellsAt(spent, pool, visits, k, s, c)
  {
    var op := visits[k].0;
    SpentAt(s.ins, op);
    var i :| 0 <= i < |s.ins| && s.ins[i].prev == op;
    assert visits[..k + 1][k] == (s.ins[i].prev, c);
  }

  lemma {:induction false} OnlyPoolSpends(
    spent: Index<OutPoint>, pool: Pool, visits: seq<(OutPoint, ClientId)>, s: Tx, c: ClientId)
    requires forall op :: op in pool ==> pool[op] == s
    ensures CountTx(VisitSpends(spent, pool, visits, c), s) == |VisitSpends(spent, pool, visits, c)|
    ensures forall t :: t in VisitSpends(spent, pool, visits, c) ==> t == s
    decreases |visits|
  {
    if visits != [] {
      CountStep(spent, pool, visits, s, c);
      OnlyPoolSpends(spent, pool, visits[..|visits| - 1], s, c);
      assert visits[..|visits|] == visits;
    }
  }

  /** A transaction with two outputs to one address. */
  function PaysTwice(h: Hash, a: Address): Tx {
    Tx(h, [], [TxOut([a], false), TxOut([a], false)])
  }

  /** A transaction that spends both of them. */
  function SpendsBoth(h: Hash, tx: Tx): Tx {
    Tx(h, [TxIn(OutPointAt(tx, 0), None), TxIn(OutPointAt(tx, 1), None)], [])
  }

  function BothSpent(tx: Tx, s: Tx): Pool {
    map[OutPointAt(tx, 0) := s, OutPointAt(tx, 1) := s]
  }

  lemma BothSpentIsValid(tx: Tx, h: Hash)
    ensures ValidPool(BothSpent(tx, SpendsBoth(h, tx)))
    ensures OutPointAt(tx, 0) != OutPointAt(tx, 1)
    ensures SpentBy(BothSpent(tx, SpendsBoth(h, tx)), SpendsBoth(h, tx)) == {OutPointAt(tx, 0), OutPointAt(tx, 1)}
  {
    var s := SpendsBoth(h, tx);
    assert s.ins[0] in s.ins && s.ins[1] in s.ins;
  }

  /** What one watch of the address means for such a transaction. */
  lemma OneWatchTwoPayments(addr: Index<string>, h: Hash, a: Address, c: ClientId)
    requires Watchers(addr, a.encoded) == {c}
    ensures
      var tx := PaysTwice(h, a);
      && Registers(addr, tx, 2, OutPointAt(tx, 0), c) && Registers(addr, tx, 2, OutPointAt(tx, 1), c)
      && Payees(addr, tx, 2, {OutPointAt(tx, 0), OutPointAt(tx, 1)}) == 2
  {
    var tx := PaysTwice(h, a);
    var ops := {OutPointAt(tx, 0), OutPointAt(tx, 1)};
    assert Watches(addr, tx.outs[0].addrs[0].encoded, c) && Watches(addr, tx.outs[1].addrs[0].encoded, c);
    assert WatchesOutput(addr, tx.outs[0], c) && WatchesOutput(addr, tx.outs[1], c);
    assert PayeesWithin(addr, tx.outs[0], 0) == 0 && PayeesWithin(addr, tx.outs[0], 1) == 1;
    assert Payees(addr, tx, 0, ops) == 0 && Payees(addr, tx, 1, ops) == 1;
  }

  /** A client watches an address, a transaction pays that address twice, and a transaction in the
      memory pool spends both outputs: the client is told of that spend twice. */
  method ToldTwice(c: ClientId, a: Address, h: Hash, g: Hash) returns (m: NotificationManager)
    ensures SpendList(m.Queue(c)) == [SpendsBoth(g, PaysTwice(h, a)), SpendsBoth(g, PaysTwice(h, a))]
  {
    m := new NotificationManager();
    forall d
      ensures !Watches(m.addr, a.encoded, d)
    {
      assert m.Gone(d);
    }
    m.AddAddrRequests(c, [a.encoded]);
    forall d
      ensures d in Watchers(m.addr, a.encoded) <==> d == c
    {
      assert d in Watchers(m.addr, a.encoded) <==> Watches(m.addr, a.encoded, d);
    }
    assert Watchers(m.addr, a.encoded) == {c};
    var tx := PaysTwice(h, a);
    var s := SpendsBoth(g, tx);
    BothSpentIsValid(tx, g);
    OneWatchTwoPayments(m.addr, h, a, c);
    ghost var spent := m.spent;
    ghost var visits := m.NotifyForTxOuts(tx, None, BothSpent(tx, s), c);
    TwiceTold(spent, m.addr, tx, BothSpent(tx, s), visits, s, c);
  }

  lemma TwiceTold(
    spent: Index<OutPoint>, addr: Index<string>, tx: Tx, pool: Pool, visits: seq<(OutPoint, ClientId)>, s: Tx,
    c: ClientId)
    requires |tx.outs| == 2 && ValidPool(pool) && AreVisits(visits, addr, tx, 2)
    requires forall op :: op in pool ==> pool[op] == s
    requires OutPointAt(tx, 0) != OutPointAt(tx, 1) && SpentBy(pool, s) == {OutPointAt(tx, 0), OutPointAt(tx, 1)}
    requires Registers(addr, tx, 2, OutPointAt(tx, 0), c) && Registers(addr, tx, 2, OutPointAt(tx, 1), c)
    requires Payees(addr, tx, 2, SpentBy(pool, s)) == 2
    ensures VisitSpends(spent, pool, visits, c) == [s, s]
  {
    ToldByPayees(spent, addr, tx, pool, visits, s, c);
    PaidTwiceToldTwice(spent, addr, tx, pool, visits, s, c, OutPointAt(tx, 0), OutPointAt(tx, 1));
    OnlyPoolSpends(spent, pool, visits, s, c);
    var list := VisitSpends(spent, pool, visits, c);
    assert |list| == 2 && list[0] in list && list[1] in list;
  }

  lemma QueueAppend(q: seq<Ntfn>, n: Ntfn)
    ensures Plain(q + [n]) == if IsMempoolSpend(n) then Plain(q) else Plain(q) + [n]
    ensures SpendList(q + [n]) == if IsMempoolSpend(n) then SpendList(q) + [n.tx] else SpendList(q)
  {
    assert (q + [n])[..|q|] == q;
  }

  lemma RegisteredClients(told: set<ClientId>, visits: seq<(OutPoint, ClientId)>, c: ClientId, op: OutPoint)
    requires forall d :: d in told <==> exists p :: (p, d) in visits
    ensures forall d :: d in told + {c} <==> exists p :: (p, d) in visits + [(op, c)]
  {
    forall d ensures d in told + {c} <==> exists p :: (p, d) in visits + [(op, c)] {
      if d in told {
        var p :| (p, d) in visits;
        assert (p, d) in visits + [(op, c)];
      }
      if d == c {
        assert (op, d) in visits + [(op, c)];
      }
    }
  }

  lemma {:induction false} PathsMeanWatched(addr: Index<string>, out: TxOut, n: nat, c: ClientId)
    requires n <= |out.addrs|
    ensures PathsWithin(addr, out, n, c) > 0 <==> WatchesWithinOutput(addr, out, n, c)
  {
    if n > 0 {
      PathsMeanWatched(addr, out, n - 1, c);
    }
  }

  lemma RegistersStep(addr: Index<string>, tx: Tx, i: nat, op: OutPoint, c: ClientId)
    requires i < |tx.outs|
    ensures Registers(addr, tx, i + 1, op, c) <==>
      Registers(addr, tx, i, op, c) || (op == OutPointAt(tx, i) && WatchesOutput(addr, tx.outs[i], c))
  {
  }

  lemma {:induction false} PathsMeanRegistered(addr: Index<string>, tx: Tx, n: nat, op: OutPoint, c: ClientId)
    requires n <= |tx.outs|
    ensures Paths(addr, tx, n, op, c) > 0 <==> Registers(addr, tx, n, op, c)
  {
    if n > 0 {
      PathsMeanRegistered(addr, tx, n - 1, op, c);
      RegistersStep(addr, tx, n - 1, op, c);
      PathsMeanWatched(addr, tx.outs[n - 1], |tx.outs[n - 1].addrs|, c);
    }
  }

  /** A client is visited for an output exactly when the output pays an address it watches. */
  lemma AllVisited(visits: seq<(OutPoint, ClientId)>, addr: Index<string>, tx: Tx)
    requires AreVisits(visits, addr, tx, |tx.outs|)
    ensures forall op, c :: (op, c) in visits <==> Registers(addr, tx, |tx.outs|, op, c)
  {
    forall op, c
      ensures (op, c) in visits <==> Registers(addr, tx, |tx.outs|, op, c)
    {
      PathsMeanRegistered(addr, tx, |tx.outs|, op, c);
      VisitedTimes(visits, op, c);
    }
  }

  lemma PaidMeansRegistered(addr: Index<string>, tx: Tx, c: ClientId)
    ensures IsPaid(addr, tx, |tx.outs|, c) <==> exists op :: Registers(addr, tx, |tx.outs|, op, c)
  {
    if IsPaid(addr, tx, |tx.outs|, c) {
      var i :| 0 <= i < |tx.outs| && WatchesOutput(addr, tx.outs[i], c);
      assert Registers(addr, tx, |tx.outs|, OutPointAt(tx, i), c);
    }
  }
}
