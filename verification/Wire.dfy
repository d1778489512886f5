/** Values shared by the websocket and peer-to-peer models: outpoints, addresses,
    transactions and blocks.  Hashes are identities. */
module Wire {

  datatype Hash = Hash(id: nat)

  const ZERO_HASH: Hash := Hash(0)
  const MAX_UINT32: nat := 0xFFFF_FFFF

  datatype Option<+T> = None | Some(value: T)

  /** The identity of a Go channel. */
  datatype Chan = Chan(id: nat)

  /** A websocket client's identity: in the node, its quit channel. */
  datatype ClientId = Client(id: nat)

  datatype OutPoint = OutPoint(hash: Hash, index: nat)

  /** The previous output of every coinbase input. */
  const NULL_OUTPOINT: OutPoint := OutPoint(ZERO_HASH, MAX_UINT32)

  /** A decoded address.  `text` is what String() prints and `encoded` what
      EncodeAddress() prints; they differ for raw public keys. */
  datatype Address =
    | PubKeyHash(hash160: nat, text: string, encoded: string)
    | ScriptHash(hash160: nat, text: string, encoded: string)
    | PubKey(key: seq<bv8>, keyHash: nat, text: string, encoded: string)
    | OtherAddress(text: string, encoded: string)

  /** An input: what it spends and, when it can be recomputed from the signature
      script and witness, the address text of the script being spent. */
  datatype TxIn = TxIn(prev: OutPoint, script: Option<string>)

  /** An output: the addresses extracted from its script, and whether that
      extraction reported an error. */
  datatype TxOut = TxOut(addrs: seq<Address>, malformed: bool)

  datatype Tx = Tx(hash: Hash, ins: seq<TxIn>, outs: seq<TxOut>)

  datatype Block = Block(hash: Hash, prev: Hash, height: nat, txs: seq<Tx>)

  /** The conversion of an output position to a 32-bit outpoint index. */
  function Index32(i: nat): nat {
    i % 0x1_0000_0000
  }

  function OutPointAt(tx: Tx, i: nat): OutPoint {
    OutPoint(tx.hash, Index32(i))
  }

  /** One of the inputs names the outpoint. */
  predicate Spends(tx: Tx, op: OutPoint) {
    exists i :: 0 <= i < |tx.ins| && tx.ins[i].prev == op
  }

  function Spent(ins: seq<TxIn>): set<OutPoint> {
    set txin | txin in ins :: txin.prev
  }

  lemma SpentIff(tx: Tx, op: OutPoint)
    ensures op in Spent(tx.ins) <==> Spends(tx, op)
  {
    if op in Spent(tx.ins) {
      var txin :| txin in tx.ins && txin.prev == op;
      var i :| 0 <= i < |tx.ins| && tx.ins[i] == txin;
      assert Spends(tx, op);
    }
  }
}
