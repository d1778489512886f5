/** Serving a getdata message: every third message carries a completion channel that the
    next fetch waits for, and the last one a done channel. */
module GetData {
  import opened Wire

  /** An inventory entry together with what the lookups for it find. */
  datatype Entry =
    | TxEntry(hash: Hash, found: bool)
    | BlockEntry(hash: Hash, fetched: bool, decoded: bool)
    | MerkleEntry(hash: Hash, filterLoaded: bool, found: bool, matched: seq<nat>, size: nat)
    | UnknownEntry(hash: Hash)

  datatype Message =
    | TxMessage(hash: Hash)
    | BlockMessage(hash: Hash)
    | TipInventory
    | MerkleMessage(hash: Hash)
    | MatchedTx(block: Hash, position: nat)
    | NotFound(missing: seq<Entry>)

  /** The lookup for a recognized entry failed, so it ends up in the notfound message. */
  predicate Fails(e: Entry) {
    match e
    case TxEntry(_, found) => !found
    case BlockEntry(_, fetched, decoded) => !fetched || !decoded
    case MerkleEntry(_, filterLoaded, found, _, _) => filterLoaded && !found
    case UnknownEntry(_) => false
  }

  /** Something is sent for the entry. */
  predicate Answered(e: Entry) {
    !e.UnknownEntry? && !Fails(e) && (e.MerkleEntry? ==> e.filterLoaded)
  }

  /** The failing entries among the first n, in order. */
  function Missing(entries: seq<Entry>, n: nat): seq<Entry>
    requires n <= |entries|
  {
    if n == 0 then []
    else if Fails(entries[n - 1]) then Missing(entries, n - 1) + [entries[n - 1]]
    else Missing(entries, n - 1)
  }

  /** How many of the first n entries have a recognized type. */
  function Known(entries: seq<Entry>, n: nat): nat
    requires n <= |entries|
  {
    if n == 0 then 0 else Known(entries, n - 1) + if entries[n - 1].UnknownEntry? then 0 else 1
  }

  /** The tokens promised to and taken from the done channel right after the last entry. */
  predicate DoneCounts(last: Entry, noneMissing: bool, promised: nat, taken: nat) {
    && promised == (if noneMissing && !last.UnknownEntry? then 1 else 0)
    && taken == (if noneMissing && Fails(last) then 1 else 0)
  }

  /** The tokens that the done channel gets for a whole list. */
  function DoneTokens(entries: seq<Entry>): nat {
    if Missing(entries, |entries|) != [] then
      if Missing(entries, |entries| - 1) == [] then 2 else 1
    else if entries != [] && !entries[|entries| - 1].UnknownEntry? then 1
    else 0
  }

  /** The filter reports positions of transactions that are in the block. */
  predicate InRange(e: Entry) {
    e.MerkleEntry? ==> forall i :: 0 <= i < |e.matched| ==> e.matched[i] < e.size
  }

  function MatchedTxs(block: Hash, matched: seq<nat>, n: nat): seq<Message>
    requires n <= |matched|
  {
    if n == 0 then [] else MatchedTxs(block, matched, n - 1) + [MatchedTx(block, matched[n - 1])]
  }

  /** The block that ended the last full inventory is answered with the new tip as well. */
  function Answer(e: Entry, continueHash: Option<Hash>): seq<Message> {
    if !Answered(e) then []
    else match e
      case TxEntry(h, _) => [TxMessage(h)]
      case BlockEntry(h, _, _) =>
        if continueHash == Some(h) then [BlockMessage(h), TipInventory] else [BlockMessage(h)]
      case MerkleEntry(h, _, _, matched, _) => [MerkleMessage(h)] + MatchedTxs(h, matched, |matched|)
      case UnknownEntry(_) => []
  }

  function NextContinue(e: Entry, continueHash: Option<Hash>): Option<Hash> {
    if e.BlockEntry? && Answered(e) && continueHash == Some(e.hash) then None else continueHash
  }

  function ContinueAfter(entries: seq<Entry>, n: nat, continueHash: Option<Hash>): Option<Hash>
    requires n <= |entries|
  {
    if n == 0 then continueHash
    else NextContinue(entries[n - 1], ContinueAfter(entries, n - 1, continueHash))
  }

  /** What was queued before, then the answers to the first n entries, in order. */
  function Answers(before: seq<Message>, entries: seq<Entry>, n: nat, continueHash: Option<Hash>): seq<Message>
    requires n <= |entries|
  {
    if n == 0 then before
    else
      Answers(before, entries, n - 1, continueHash)
      + Answer(entries[n - 1], ContinueAfter(entries, n - 1, continueHash))
  }

  // ----- the answers, entry by entry -----

  /** The block is sent, and it is the first time since the full inventory that it ended. */
  predicate EndsInventory(entries: seq<Entry>, k: nat, continueHash: Option<Hash>)
    requires k < |entries|
  {
    && continueHash.Some? && entries[k] == BlockEntry(continueHash.value, true, true)
    && forall j :: 0 <= j < k ==> entries[j] != BlockEntry(continueHash.value, true, true)
  }

  lemma {:induction false} ContinueIff(entries: seq<Entry>, n: nat, h: Hash)
    requires n <= |entries|
    ensures ContinueAfter(entries, n, None) == None
    ensures ContinueAfter(entries, n, Some(h)) ==
      if forall j :: 0 <= j < n ==> entries[j] != BlockEntry(h, true, true) then Some(h) else None
  {
    if n > 0 {
      ContinueIff(entries, n - 1, h);
    }
  }

  lemma {:induction false} MatchedTxsAt(block: Hash, matched: seq<nat>, n: nat)
    requires n <= |matched|
    ensures |MatchedTxs(block, matched, n)| == n
    ensures forall i :: 0 <= i < n ==> MatchedTxs(block, matched, n)[i] == MatchedTx(block, matched[i])
  {
    if n > 0 {
      MatchedTxsAt(block, matched, n - 1);
    }
  }

  /** What each entry adds: the transaction; the block, followed by the tip when it is the one
      that ended the last full inventory; the filtered block followed by its matches; or
      nothing. */
  lemma AnswerOf(before: seq<Message>, entries: seq<Entry>, k: nat, continueHash: Option<Hash>)
    requires k < |entries|
    ensures
      var e := entries[k];
      var more :=
        if e.TxEntry? && e.found then [TxMessage(e.hash)]
        else if EndsInventory(entries, k, continueHash) then [BlockMessage(e.hash), TipInventory]
        else if e.BlockEntry? && e.fetched && e.decoded then [BlockMessage(e.hash)]
        else if e.MerkleEntry? && e.filterLoaded && e.found then
          [MerkleMessage(e.hash)] + seq(|e.matched|, i requires 0 <= i < |e.matched| => MatchedTx(e.hash, e.matched[i]))
        else [];
      Answers(before, entries, k + 1, continueHash) == Answers(before, entries, k, continueHash) + more
  {
    var e := entries[k];
    ContinueIff(entries, k, if continueHash.Some? then continueHash.value else e.hash);
    if e.MerkleEntry? {
      MatchedTxsAt(e.hash, e.matched, |e.matched|);
      assert MatchedTxs(e.hash, e.matched, |e.matched|)
          == seq(|e.matched|, i requires 0 <= i < |e.matched| => MatchedTx(e.hash, e.matched[i]));
    }
  }

  /** Which entries are reported missing: those of a known type that are not there. */
  lemma MissingOf(entries: seq<Entry>, k: nat)
    requires k < |entries|
    ensures
      var e := entries[k];
      var missing :=
        || (e.TxEntry? && !e.found) || (e.BlockEntry? && !(e.fetched && e.decoded))
        || (e.MerkleEntry? && e.filterLoaded && !e.found);
      Missing(entries, k + 1) == Missing(entries, k) + if missing then [e] else []
  {
  }

  lemma {:induction false} MissingAreFailures(entries: seq<Entry>, n: nat)
    requires n <= |entries|
    ensures Missing(entries, n) == [] <==> forall k :: 0 <= k < n ==> !Fails(entries[k])
  {
    if n > 0 {
      MissingAreFailures(entries, n - 1);
    }
  }

  lemma {:induction false} KnownAreRecognized(entries: seq<Entry>, n: nat)
    requires n <= |entries|
    ensures Known(entries, n) > 0 <==> exists k :: 0 <= k < n && !entries[k].UnknownEntry?
  {
    if n > 0 {
      KnownAreRecognized(entries, n - 1);
    }
  }

  /** The final receive never returns exactly when the list ends in an unrecognized type, some
      entry was recognized, and every lookup succeeded. */
  lemma StuckIff(entries: seq<Entry>)
    ensures DoneTokens(entries) == 0 && Known(entries, |entries|) > 0 <==>
      && entries != [] && entries[|entries| - 1].UnknownEntry?
      && (exists k :: 0 <= k < |entries| && !entries[k].UnknownEntry?)
      && (forall k :: 0 <= k < |entries| ==> !Fails(entries[k]))
  {
    MissingAreFailures(entries, |entries|);
    KnownAreRecognized(entries, |entries|);
  }

  /** With recognized types only, the done channel gets exactly one token, and a second one
      only after the first was taken, when the last entry is the first to fail. */
  lemma RecognizedIsServed(entries: seq<Entry>)
    requires entries != [] && forall k :: 0 <= k < |entries| ==> !entries[k].UnknownEntry?
    ensures DoneTokens(entries) ==
      if Fails(entries[|entries| - 1]) && (forall k :: 0 <= k < |entries| - 1 ==> !Fails(entries[k])) then 2 else 1
  {
    MissingAreFailures(entries, |entries|);
    MissingAreFailures(entries, |entries| - 1);
  }

  function At(m: map<Chan, nat>, c: Chan): nat {
    if c in m then m[c] else 0
  }

  /** One more token for c, if there is a channel. */
  function Bump(m: map<Chan, nat>, c: Option<Chan>): map<Chan, nat> {
    if c.Some? then m[c.value := At(m, c.value) + 1] else m
  }

  /** Messages in the queue that will signal c. */
  ghost function Owed(q: seq<(Message, Option<Chan>)>, c: Chan): nat {
    if q == [] then 0 else (if q[0].1 == Some(c) then 1 else 0) + Owed(q[1..], c)
  }

  lemma OwedAppend(q: seq<(Message, Option<Chan>)>, m: (Message, Option<Chan>), c: Chan)
    ensures Owed(q + [m], c) == Owed(q, c) + if m.1 == Some(c) then 1 else 0
  {
    if q == [] {
      assert q + [m] == [m];
    } else {
      assert (q + [m])[1..] == q[1..] + [m];
    }
  }

  ghost predicate KeptBelow(first: nat, before: map<Chan, nat>, after: map<Chan, nat>) {
    forall c: Chan {:trigger At(after, c)} :: c.id < first ==> At(after, c) == At(before, c)
  }

  lemma KeptByBump(first: nat, before: map<Chan, nat>, after: map<Chan, nat>, c: Option<Chan>)
    requires KeptBelow(first, before, after) && (c.Some? ==> first <= c.value.id)
    ensures KeptBelow(first, before, Bump(after, c))
  {
    forall d: Chan | d.id < first
      ensures At(Bump(after, c), d) == At(before, d)
    {
      assert At(after, d) == At(before, d);
    }
  }

  /** The channel for entry i: the done channel for the last one when all were found so far,
      a new one for every third. */
  predicate Chosen(c: Option<Chan>, i: nat, length: nat, noneMissing: bool, done: Chan, next: nat) {
    c == if i + 1 == length && noneMissing then Some(done)
         else if (i + 1) % 3 == 0 then Some(Chan(next))
         else None
  }

  /** Every channel handed to a recognized entry, other than the done channel, was promised
      exactly one token; the done channel goes to the last entry only. */
  predicate OneTokenEach(
    entries: seq<Entry>, handed: seq<Option<Chan>>, done: Chan, next: nat, promised: map<Chan, nat>)
    requires |handed| <= |entries|
  {
    forall k :: 0 <= k < |handed| && handed[k].Some? ==>
      && done.id <= handed[k].value.id < next
      && (handed[k] == Some(done) ==> k == |entries| - 1)
      && (handed[k] != Some(done) && !entries[k].UnknownEntry? ==> At(promised, handed[k].value) == 1)
  }

  /** Before the last entry, every third message carries a channel and no other does. */
  predicate EveryThird(entries: seq<Entry>, handed: seq<Option<Chan>>) {
    forall k :: 0 <= k < |handed| && k + 1 < |entries| ==> (handed[k].Some? <==> k % 3 == 2)
  }

  lemma OneTokenStep(
    entries: seq<Entry>, handed: seq<Option<Chan>>, done: Chan, next: nat, newNext: nat,
    c: Option<Chan>, noneMissing: bool, promised: map<Chan, nat>)
    requires |handed| < |entries| && done.id < next && next <= newNext
    requires OneTokenEach(entries, handed, done, next, promised)
    requires Chosen(c, |handed|, |entries|, noneMissing, done, next)
    requires c.Some? ==> c.value.id < newNext && At(promised, c.value) == 0
    ensures EveryThird(entries, handed) ==> EveryThird(entries, handed + [c])
    ensures OneTokenEach(entries, handed + [c], done, newNext,
                         if entries[|handed|].UnknownEntry? then promised else Bump(promised, c))
  {
  }

  /** The peer's outgoing side.  Messages wait in order, each with the channel to signal once it
      is sent; a channel has room for one token.  `taken` counts the tokens received from each
      channel. */
  class Link {
    var queue: seq<(Message, Option<Chan>)>
    var sent: map<Chan, nat>
    var taken: map<Chan, nat>
    var nextChan: nat
    var continueHash: Option<Hash>
    /** Tokens that a channel has received or is going to receive for a queued message. */
    ghost var promised: map<Chan, nat>
    /** Everything ever queued. */
    ghost var history: seq<Message>

    /** No channel is ever promised a second token before the first is taken, so no send on
        a one-slot channel blocks. */
    ghost predicate Valid()
      reads this
    {
      && (forall c {:trigger Owed(queue, c)} :: At(promised, c) == At(sent, c) + Owed(queue, c))
      && (forall c {:trigger At(sent, c)} :: At(taken, c) <= At(sent, c))
      && (forall c {:trigger At(promised, c)} :: At(taken, c) <= At(promised, c) <= At(taken, c) + 1)
      && (forall c {:trigger At(promised, c)} :: At(promised, c) > 0 ==> c.id < nextChan)
    }

    /** The slot of c is free, and c was made before. */
    ghost predicate Free(c: Option<Chan>)
      reads this
    {
      c.Some? ==> At(promised, c.value) == At(taken, c.value) && c.value.id < nextChan
    }

    /** A token is in w or on its way. */
    ghost predicate Pending(w: Option<Chan>)
      reads this
    {
      w.Some? ==> At(promised, w.value) == At(taken, w.value) + 1
    }

    constructor ()
      ensures Valid() && history == [] && promised == map[] && taken == map[]
    {
      queue, sent, taken, nextChan, continueHash := [], map[], map[], 0, None;
      history, promised := [], map[];
    }

    /** The peer sends the oldest queued message and signals its channel. */
    method Deliver()
      requires Valid() && queue != []
      modifies this`queue, this`sent
      ensures Valid() && |queue| < |old(queue)|
    {
      ghost var q, s := queue, sent;
      var done := queue[0].1;
      queue := queue[1..];
      if done.Some? {
        sent := sent[done.value := At(sent, done.value) + 1];
      }
      assert forall c :: Owed(q, c) == (if done == Some(c) then 1 else 0) + Owed(queue, c);
      assert forall c :: At(sent, c) >= At(s, c);
    }

    /** Any number of queued messages may be sent between two steps. */
    method Yield()
      requires Valid()
      modifies this`queue, this`sent
      ensures Valid()
    {
      var k: nat :| k <= |queue|;
      while k > 0 && queue != []
        invariant Valid()
        decreases k
      {
        Deliver();
        k := k - 1;
      }
    }

    method MakeChan() returns (c: Chan)
      requires Valid()
      modifies this`nextChan
      ensures Valid() && c == Chan(old(nextChan)) && nextChan == old(nextChan) + 1
    {
      c := Chan(nextChan);
      nextChan := nextChan + 1;
    }

    /** A direct send, when there is a channel. */
    method Signal(c: Option<Chan>)
      requires Valid() && Free(c)
      modifies this`sent, this`promised
      ensures Valid() && promised == Bump(old(promised), c)
    {
      ghost var s, p := sent, promised;
      if c.Some? {
        sent := sent[c.value := At(sent, c.value) + 1];
      }
      promised := Bump(promised, c);
      assert forall d :: At(sent, d) == At(s, d) + if c == Some(d) then 1 else 0;
      assert forall d :: At(promised, d) == At(p, d) + if c == Some(d) then 1 else 0;
    }

    method QueueMessage(m: Message, done: Option<Chan>)
      requires Valid() && Free(done)
      modifies this`queue, this`promised, this`history
      ensures Valid() && promised == Bump(old(promised), done)
      ensures history == old(history) + [m]
    {
      ghost var p := promised;
      forall d
        ensures Owed(queue + [(m, done)], d) == Owed(queue, d) + if done == Some(d) then 1 else 0
      {
        OwedAppend(queue, (m, done), d);
      }
      queue := queue + [(m, done)];
      history := history + [m];
      promised := Bump(promised, done);
      assert forall d :: At(promised, d) == At(p, d) + if done == Some(d) then 1 else 0;
    }

    /** Waits for a token.  `ok` is false when none will ever come. */
    method Receive(c: Chan) returns (ok: bool)
      requires Valid()
      modifies this`queue, this`sent, this`taken
      ensures Valid()
      ensures ok <==> At(promised, c) > At(old(taken), c)
      ensures taken == if ok then Bump(old(taken), Some(c)) else old(taken)
    {
      while At(sent, c) == At(taken, c) && queue != []
        invariant Valid() && taken == old(taken)
        decreases |queue|
      {
        Deliver();
      }
      assert queue == [] ==> Owed(queue, c) == 0;
      assert At(promised, c) >= At(sent, c) by {
        assert Owed(queue, c) >= 0;
      }
      ok := At(sent, c) > At(taken, c);
      if ok {
        taken := taken[c := At(taken, c) + 1];
      }
    }

    /** The receive on a wait channel, which never blocks. */
    method Await(w: Option<Chan>)
      requires Valid() && Pending(w)
      modifies this`queue, this`sent, this`taken
      ensures Valid() && taken == Bump(old(taken), w)
    {
      if w.Some? {
        var ok := Receive(w.value);
        assert ok;
      }
    }

    /** What each push function does: the done channel gets one token on every path, the wait
        channel is drained exactly when something is sent, and the answer is queued. */
    twostate predicate Pushed(e: Entry, c: Option<Chan>, w: Option<Chan>)
      reads this
    {
      && promised == Bump(old(promised), c)
      && taken == (if Answered(e) then Bump(old(taken), w) else old(taken))
      && history == old(history) + Answer(e, old(continueHash))
      && continueHash == NextContinue(e, old(continueHash))
    }

    method PushTx(e: Entry, c: Option<Chan>, w: Option<Chan>) returns (ok: bool)
      requires e.TxEntry? && Valid() && Free(c) && Pending(w)
      modifies this`queue, this`sent, this`taken, this`promised, this`history
      ensures Valid() && Pushed(e, c, w) && ok == !Fails(e)
    {
      if !e.found {
        Signal(c);
        return false;
      }
      Await(w);
      Yield();
      QueueMessage(TxMessage(e.hash), c);
      return true;
    }

    method PushBlock(e: Entry, c: Option<Chan>, w: Option<Chan>) returns (ok: bool)
      requires e.BlockEntry? && Valid() && Free(c) && Pending(w)
      modifies this`queue, this`sent, this`taken, this`promised, this`history, this`continueHash
      ensures Valid() && Pushed(e, c, w) && ok == !Fails(e)
    {
      if !e.fetched {
        Signal(c);
        return false;
      }
      if !e.decoded {
        Signal(c);
        return false;
      }
      Await(w);
      var sendInv := continueHash == Some(e.hash);
      QueueMessage(BlockMessage(e.hash), if sendInv then None else c);
      Yield();
      if sendInv {
        QueueMessage(TipInventory, c);
        continueHash := None;
      }
      return true;
    }

    method PushMerkleBlock(e: Entry, c: Option<Chan>, w: Option<Chan>) returns (ok: bool)
      requires e.MerkleEntry? && InRange(e) && Valid() && Free(c) && Pending(w)
      modifies this`queue, this`sent, this`taken, this`promised, this`history
      ensures Valid() && Pushed(e, c, w) && ok == !Fails(e)
    {
      if !e.filterLoaded {
        Signal(c);
        return true;
      }
      if !e.found {
        Signal(c);
        return false;
      }
      Await(w);
      QueueMessage(MerkleMessage(e.hash), if |e.matched| == 0 then c else None);
      if |e.matched| > 0 {
        PushMatched(e, c);
      }
      return true;
    }

    /** The matched transactions, of which the last carries the channel. */
    method PushMatched(e: Entry, c: Option<Chan>)
      requires e.MerkleEntry? && InRange(e) && |e.matched| > 0 && Valid() && Free(c)
      modifies this`queue, this`sent, this`promised, this`history
      ensures Valid() && promised == Bump(old(promised), c)
      ensures history == old(history) + MatchedTxs(e.hash, e.matched, |e.matched|)
    {
      for i := 0 to |e.matched|
        invariant Valid() && promised == if i == |e.matched| then Bump(old(promised), c) else old(promised)
        invariant history == old(history) + MatchedTxs(e.hash, e.matched, i)
      {
        Yield();
        var dc := if i == |e.matched| - 1 then c else None;
        if e.matched[i] < e.size {
          QueueMessage(MatchedTx(e.hash, e.matched[i]), dc);
        }
      }
    }

    /** Any entry of a recognized type. */
    method Push(e: Entry, c: Option<Chan>, w: Option<Chan>) returns (ok: bool)
      requires !e.UnknownEntry? && InRange(e) && Valid() && Free(c) && Pending(w)
      modifies this`queue, this`sent, this`taken, this`promised, this`history, this`continueHash
      ensures Valid() && Pushed(e, c, w) && ok == !Fails(e)
    {
      match e
      case TxEntry(_, _) => ok := PushTx(e, c, w);
      case BlockEntry(_, _, _) => ok := PushBlock(e, c, w);
      case MerkleEntry(_, _, _, _, _) => ok := PushMerkleBlock(e, c, w);
    }

    /** The channel for entry i. */
    method ChooseChan(i: nat, length: nat, noneMissing: bool, done: Chan) returns (c: Option<Chan>)
      requires Valid() && done.id < nextChan
      modifies this`nextChan
      ensures Valid() && nextChan >= old(nextChan) && Chosen(c, i, length, noneMissing, done, old(nextChan))
      ensures c.Some? ==> c.value.id < nextChan
    {
      c := None;
      if i + 1 == length && noneMissing {
        c := Some(done);
      } else if (i + 1) % 3 == 0 {
        var made := MakeChan();
        c := Some(made);
      }
    }

    /** Answers a recognized entry. */
    method ServeEntry(e: Entry, last: bool, c: Option<Chan>, w: Option<Chan>) returns (failed: bool)
      requires !e.UnknownEntry? && InRange(e) && Valid() && Free(c) && Pending(w)
      modifies this`queue, this`sent, this`taken, this`promised, this`history, this`continueHash
      ensures Valid() && failed == Fails(e) && promised == Bump(old(promised), c)
      ensures taken == if Answered(e) then Bump(old(taken), w)
                       else if failed && last then Bump(old(taken), c)
                       else old(taken)
      ensures history == old(history) + Answer(e, old(continueHash))
      ensures continueHash == NextContinue(e, old(continueHash))
    {
      var ok := Push(e, c, w);
      failed := !ok;
      if failed && last && c.Some? {
        var got := Receive(c.value);
        assert got;
      }
    }

    /** The state of the channels after some entries.  The done channel was made first, and
        everything promised or taken since went to it or to a channel made after it. */
    ghost predicate Serving(
      entries: seq<Entry>, handed: seq<Option<Chan>>, done: Chan, w: Option<Chan>,
      promised0: map<Chan, nat>, taken0: map<Chan, nat>)
      reads this
    {
      && Valid() && |handed| <= |entries| && done.id < nextChan
      && (|handed| < |entries| ==> Pending(w))
      && (|handed| < |entries| || entries == [] ==> At(promised, done) == 0)
      && (w.Some? ==> done.id <= w.value.id)
      && OneTokenEach(entries, handed, done, nextChan, promised)
      && KeptBelow(done.id, promised0, promised) && KeptBelow(done.id, taken0, taken)
    }

    /** One turn of the loop. */
    method Turn(entries: seq<Entry>, handed: seq<Option<Chan>>, done: Chan, w: Option<Chan>, noneMissing: bool,
                ghost promised0: map<Chan, nat>, ghost taken0: map<Chan, nat>)
      returns (given: seq<Option<Chan>>, waitChan: Option<Chan>, failed: bool)
      requires Serving(entries, handed, done, w, promised0, taken0) && |handed| < |entries|
      requires InRange(entries[|handed|])
      modifies this
      ensures EveryThird(entries, handed) ==> EveryThird(entries, given)
      ensures |given| == |handed| + 1 && Serving(entries, given, done, waitChan, promised0, taken0)
      ensures |given| == |entries| ==>
        DoneCounts(entries[|handed|], noneMissing, At(promised, done), At(taken, done))
      ensures failed == Fails(entries[|handed|])
      ensures history == old(history) + Answer(entries[|handed|], old(continueHash))
      ensures continueHash == NextContinue(entries[|handed|], old(continueHash))
    {
      var e, last := entries[|handed|], |handed| == |entries| - 1;
      ghost var next := nextChan;
      var c := ChooseChan(|handed|, |entries|, noneMissing, done);
      given := handed + [c];
      OneTokenStep(entries, handed, done, next, nextChan, c, noneMissing, promised);
      if e.UnknownEntry? {
        return given, w, false;
      }
      KeptByBump(done.id, promised0, promised, c);
      KeptByBump(done.id, taken0, taken, c);
      KeptByBump(done.id, taken0, taken, w);
      failed := ServeEntry(e, last, c, w);
      waitChan := c;
    }

    method OnGetData(entries: seq<Entry>) returns (served: bool, done: Chan, handed: seq<Option<Chan>>)
      requires Valid() && forall k :: 0 <= k < |entries| ==> InRange(entries[k])
      modifies this
      ensures Valid() && done == Chan(old(nextChan)) && |handed| == |entries|
      ensures OneTokenEach(entries, handed, done, nextChan, promised) && EveryThird(entries, handed)
      ensures KeptBelow(old(nextChan), old(promised), promised) && KeptBelow(old(nextChan), old(taken), taken)
      ensures At(promised, done) == DoneTokens(entries)
      ensures served <==> DoneTokens(entries) > 0 || Known(entries, |entries|) == 0
      ensures Known(entries, |entries|) > 0 ==> At(taken, done) == DoneTokens(entries)
      ensures history == Answers(old(history), entries, |entries|, old(continueHash))
                         + if Missing(entries, |entries|) == [] then [] else [NotFound(Missing(entries, |entries|))]
    {
      done := MakeChan();
      ghost var h, p, t := history, promised, taken;
      var waitChan, notFound, numAdded;
      handed, waitChan, notFound, numAdded := ServeAll(entries, done);
      served := Finish(entries, handed, done, waitChan, notFound, numAdded, p, t);
    }

    method ServeAll(entries: seq<Entry>, done: Chan)
      returns (handed: seq<Option<Chan>>, waitChan: Option<Chan>, notFound: seq<Entry>, numAdded: nat)
      requires Serving(entries, [], done, None, promised, taken)
      requires forall k :: 0 <= k < |entries| ==> InRange(entries[k])
      modifies this
      ensures |handed| == |entries| && notFound == Missing(entries, |entries|) && numAdded == Known(entries, |entries|)
      ensures Serving(entries, handed, done, waitChan, old(promised), old(taken)) && EveryThird(entries, handed)
      ensures entries != [] ==>
        DoneCounts(entries[|entries| - 1], Missing(entries, |entries| - 1) == [], At(promised, done), At(taken, done))
      ensures history == Answers(old(history), entries, |entries|, old(continueHash))
    {
      numAdded, notFound, waitChan, handed := 0, [], None, [];
      for i := 0 to |entries|
        invariant Serving(entries, handed, done, waitChan, old(promised), old(taken))
        invariant i == |entries| > 0 ==>
            DoneCounts(entries[i - 1], Missing(entries, i - 1) == [], At(promised, done), At(taken, done))
        invariant EveryThird(entries, handed)
        invariant |handed| == i && Told(entries, i, notFound, numAdded, old(history), old(continueHash))
      {
        Yield();
        var failed;
        handed, waitChan, failed := Turn(entries, handed, done, waitChan, notFound == [], old(promised), old(taken));
        if failed {
          notFound := notFound + [entries[i]];
        }
        if !entries[i].UnknownEntry? {
          numAdded := numAdded + 1;
        }
      }
    }

    /** The answers given to the first i entries, and what was counted. */
    ghost predicate Told(
      entries: seq<Entry>, i: nat, notFound: seq<Entry>, numAdded: nat,
      history0: seq<Message>, continueHash0: Option<Hash>)
      requires i <= |entries|
      reads this
    {
      && notFound == Missing(entries, i) && numAdded == Known(entries, i)
      && history == Answers(history0, entries, i, continueHash0)
      && continueHash == ContinueAfter(entries, i, continueHash0)
    }

    /** The notfound message, and the wait for everything to be sent. */
    method Finish(entries: seq<Entry>, ghost handed: seq<Option<Chan>>, done: Chan, ghost w: Option<Chan>,
                  notFound: seq<Entry>, numAdded: nat, ghost promised0: map<Chan, nat>, ghost taken0: map<Chan, nat>)
      returns (served: bool)
      requires Serving(entries, handed, done, w, promised0, taken0) && |handed| == |entries|
      requires notFound == Missing(entries, |entries|) && numAdded == Known(entries, |entries|)
      requires entries != [] ==>
        DoneCounts(entries[|entries| - 1], Missing(entries, |entries| - 1) == [], At(promised, done), At(taken, done))
      modifies this
      ensures Valid() && OneTokenEach(entries, handed, done, nextChan, promised)
      ensures KeptBelow(done.id, promised0, promised) && KeptBelow(done.id, taken0, taken)
      ensures At(promised, done) == DoneTokens(entries)
      ensures served <==> DoneTokens(entries) > 0 || Known(entries, |entries|) == 0
      ensures Known(entries, |entries|) > 0 ==> At(taken, done) == DoneTokens(entries)
      ensures history == old(history) + if notFound == [] then [] else [NotFound(notFound)]
    {
      KeptByBump(done.id, promised0, promised, Some(done));
      KeptByBump(done.id, taken0, taken, Some(done));
      if notFound != [] {
        QueueMessage(NotFound(notFound), Some(done));
      }
      served := true;
      if numAdded > 0 {
        served := Receive(done);
      }
    }
  }

  /** A transaction that is found, then an entry of an unrecognized type: the handler never
      returns. */
  method StuckOnUnknown(h: Hash, g: Hash) returns (link: Link, served: bool)
    ensures !served
  {
    var entries := [TxEntry(h, true), UnknownEntry(g)];
    link := new Link();
    var done, handed;
    served, done, handed := link.OnGetData(entries);
    assert !Fails(entries[0]) && !entries[0].UnknownEntry?;
    StuckIff(entries);
  }
}
