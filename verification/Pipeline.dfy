/** The goroutines between a websocket client's notifications and its socket: producers,
    the notification queue handler, the output handler, and whoever disconnects the
    client, interleaved step by step. */
module Pipeline {

  datatype Msg = Msg(id: nat)

  /** An entry of the send channel; replies carry no done channel. */
  datatype Item = Ntfn(msg: Msg) | Reply(msg: Msg)

  const SEND_BUFFER: nat := 50

  /** Where the notification queue handler is.  Checking and Sending are the two halves of
      SendMessage: the disconnect test and the send on the buffered channel. */
  datatype QueuePc = QSelect | QChecking(msg: Msg) | QSending(msg: Msg) | QCleanup | QExited

  /** Where the output handler is: holding an item to write, or about to send on the done
      channel, in the main loop or while draining. */
  datatype OutPc = OSelect | OWriting(item: Item) | OAcking | OCleanup | ODrainAcking | OExited

  /** `queued` and `written` record what was put on the notification channel and what
      notifications reached the socket. */
  datatype State = State(
    ntfnChan: seq<Msg>, pending: seq<Msg>, waiting: bool, q: QueuePc,
    sent: seq<bool>, sendChan: seq<Item>, out: OutPc, disconnected: bool,
    queued: seq<Msg>, written: seq<Msg>)

  const INIT: State := State([], [], false, QSelect, [], [], OSelect, false, [], [])

  datatype Action =
    | Enqueue(m: Msg)        // QueueNotification puts a message on the channel
    | SendReply(m: Msg)      // a request handler sends a reply
    | Disconnect
    | QTake                  // the queue handler receives a notification
    | QDone                  // the queue handler receives a done token
    | QQuit
    | QCheck                 // SendMessage: dropped when disconnected
    | QPush                  // SendMessage: onto the send channel
    | QDrainNtfn
    | QDrainDone
    | QExit
    | OTake
    | OWrite(ok: bool)
    | OAck
    | OQuit
    | ODrain
    | OExit

  /** Whether an action can happen now; a send on a full channel cannot. */
  predicate Enabled(s: State, a: Action) {
    match a
    case Enqueue(_) => |s.ntfnChan| < 1
    case SendReply(_) => |s.sendChan| < SEND_BUFFER
    case Disconnect => true
    case QTake => s.q.QSelect? && s.ntfnChan != []
    case QDone => s.q.QSelect? && s.sent != []
    case QQuit => s.q.QSelect? && s.disconnected
    case QCheck => s.q.QChecking? && (s.disconnected ==> |s.sent| < 1)
    case QPush => s.q.QSending? && |s.sendChan| < SEND_BUFFER
    case QDrainNtfn => s.q.QCleanup? && s.ntfnChan != []
    case QDrainDone => s.q.QCleanup? && s.sent != []
    case QExit => s.q.QCleanup? && s.ntfnChan == [] && s.sent == []
    case OTake => s.out.OSelect? && s.sendChan != []
    case OWrite(_) => s.out.OWriting?
    case OAck => (s.out.OAcking? || s.out.ODrainAcking?) && |s.sent| < 1
    case OQuit => s.out.OSelect? && s.disconnected
    case ODrain => s.out.OCleanup? && s.sendChan != []
    case OExit => s.out.OCleanup? && s.sendChan == []
  }

  function Next(s: State, a: Action): State
    requires Enabled(s, a)
  {
    match a
    case Enqueue(m) => s.(ntfnChan := s.ntfnChan + [m], queued := s.queued + [m])
    case SendReply(m) => s.(sendChan := s.sendChan + [Reply(m)])
    case Disconnect => s.(disconnected := true)
    case QTake =>
      var m := s.ntfnChan[0];
      var t := s.(ntfnChan := s.ntfnChan[1..], waiting := true);
      if s.waiting then t.(pending := s.pending + [m]) else t.(q := QChecking(m))
    case QDone =>
      var t := s.(sent := s.sent[1..]);
      if s.pending == [] then t.(waiting := false)
      else t.(pending := s.pending[1..], q := QChecking(s.pending[0]))
    case QQuit => s.(q := QCleanup)
    case QCheck =>
      if s.disconnected then s.(sent := s.sent + [false], q := QSelect) else s.(q := QSending(s.q.msg))
    case QPush => s.(sendChan := s.sendChan + [Ntfn(s.q.msg)], q := QSelect)
    case QDrainNtfn => s.(ntfnChan := s.ntfnChan[1..])
    case QDrainDone => s.(sent := s.sent[1..])
    case QExit => s.(q := QExited)
    case OTake => s.(sendChan := s.sendChan[1..], out := OWriting(s.sendChan[0]))
    case OWrite(ok) =>
      if !ok then s.(disconnected := true, out := OCleanup)
      else if s.out.item.Ntfn? then s.(written := s.written + [s.out.item.msg], out := OAcking)
      else s.(out := OSelect)
    case OAck => s.(sent := s.sent + [s.out.OAcking?], out := if s.out.OAcking? then OSelect else OCleanup)
    case OQuit => s.(out := OCleanup)
    case ODrain => s.(sendChan := s.sendChan[1..], out := if s.sendChan[0].Ntfn? then ODrainAcking else OCleanup)
    case OExit => s.(out := OExited)
  }

  /** The state after a run, None if some action could not happen. */
  function Run(actions: seq<Action>): (end: Maybe)
    decreases |actions|
  {
    if actions == [] then Reached(INIT)
    else match Run(actions[..|actions| - 1])
    case Reached(s) =>
      var last := actions[|actions| - 1];
      if Enabled(s, last) then Reached(Next(s, last)) else Impossible
    case Impossible => Impossible
  }

  datatype Maybe = Reached(state: State) | Impossible

  // ---- What every run keeps ----

  function NtfnsIn(items: seq<Item>): seq<Msg> {
    if items == [] then []
    else (if items[0].Ntfn? then [items[0].msg] else []) + NtfnsIn(items[1..])
  }

  lemma {:induction false} NtfnsAppend(items: seq<Item>, item: Item)
    ensures NtfnsIn(items + [item]) == NtfnsIn(items) + (if item.Ntfn? then [item.msg] else [])
  {
    if items != [] {
      assert (items + [item])[1..] == items[1..] + [item];
      NtfnsAppend(items[1..], item);
    } else {
      assert [item][1..] == [];
      assert items + [item] == [item];
    }
  }

  /** The notifications past the disconnect test and not yet written, nearest to the socket
      first. */
  function Committed(s: State): seq<Msg> {
    (if s.out.OWriting? && s.out.item.Ntfn? then [s.out.item.msg] else []) +
    NtfnsIn(s.sendChan) +
    (if s.q.QSending? then [s.q.msg] else [])
  }

  function Checking(s: State): seq<Msg> {
    if s.q.QChecking? then [s.q.msg] else []
  }

  /** Notifications under way plus done tokens, in the channel or about to be sent. */
  function InFlight(s: State): nat {
    |Committed(s)| + |Checking(s)| + |s.sent| + (if s.out.OAcking? || s.out.ODrainAcking? then 1 else 0)
  }

  /** Everything under way, nearest to the socket first. */
  function Ahead(s: State): seq<Msg> {
    Committed(s) + Checking(s)
  }

  predicate Inv(s: State) {
    && InFlight(s) <= 1
    && (!s.waiting ==> InFlight(s) == 0 && s.pending == [])
    && s.written + Committed(s) <= s.queued
    && (!s.disconnected ==> (s.waiting ==> InFlight(s) == 1) && InOrder(s) && Running(s))
  }

  /** For a connected client nothing is lost or reordered. */
  predicate InOrder(s: State) {
    s.queued == s.written + Ahead(s) + s.pending + s.ntfnChan
  }

  predicate Running(s: State) {
    !s.q.QCleanup? && !s.q.QExited? && !s.out.OCleanup? && !s.out.ODrainAcking? && !s.out.OExited?
  }

  lemma TakeKeepsInv(s: State)
    requires Inv(s) && Enabled(s, QTake)
    ensures Inv(Next(s, QTake))
  {
    var t, m := Next(s, QTake), s.ntfnChan[0];
    assert s.ntfnChan == [m] + t.ntfnChan;
    assert Committed(t) == Committed(s) && Checking(s) == [];
    if !s.disconnected {
      QueueBehind(s.written + Ahead(s), s.pending, m, t.ntfnChan);
      if !s.waiting {
        assert Ahead(s) == [] && Ahead(t) == [m];
        assert s.written + [] == s.written;
      }
    }
  }

  /** Moving the head of the channel behind the pending messages, or ahead of none. */
  lemma QueueBehind(front: seq<Msg>, pending: seq<Msg>, m: Msg, rest: seq<Msg>)
    ensures front + pending + ([m] + rest) == front + (pending + [m]) + rest
    ensures pending == [] ==> front + pending + ([m] + rest) == front + [m] + pending + rest
  {
  }

  lemma DoneKeepsInv(s: State)
    requires Inv(s) && Enabled(s, QDone)
    ensures Inv(Next(s, QDone))
  {
    var t := Next(s, QDone);
    assert |s.sent| == 1 && Ahead(s) == [] && Committed(t) == [];
    if s.pending != [] {
      assert s.pending == [s.pending[0]] + s.pending[1..] && Ahead(t) == [s.pending[0]];
      Regroup(s.written, s.pending[0], s.pending[1..], s.ntfnChan);
    }
  }

  lemma Regroup(front: seq<Msg>, m: Msg, rest: seq<Msg>, last: seq<Msg>)
    ensures front + [] + ([m] + rest) + last == front + [m] + rest + last
  {
  }

  lemma CheckKeepsInv(s: State)
    requires Inv(s) && Enabled(s, QCheck)
    ensures Inv(Next(s, QCheck))
  {
    var t := Next(s, QCheck);
    assert Committed(s) == [] && Checking(s) == [s.q.msg];
    if s.disconnected {
      assert Committed(t) == [];
    } else {
      assert Committed(t) == [s.q.msg] && Ahead(t) == Ahead(s);
      FrontIsPrefix(s.written + Ahead(s), s.pending, s.ntfnChan);
    }
  }

  lemma FrontIsPrefix(front: seq<Msg>, a: seq<Msg>, b: seq<Msg>)
    ensures front <= front + a + b
  {
  }

  lemma PushKeepsInv(s: State)
    requires Inv(s) && Enabled(s, QPush)
    ensures Inv(Next(s, QPush))
  {
    NtfnsAppend(s.sendChan, Ntfn(s.q.msg));
    assert Committed(Next(s, QPush)) == Committed(s);
  }

  lemma OTakeKeepsInv(s: State)
    requires Inv(s) && Enabled(s, OTake)
    ensures Inv(Next(s, OTake))
  {
    assert Committed(Next(s, OTake)) == Committed(s);
  }

  lemma WriteKeepsInv(s: State, ok: bool)
    requires Inv(s) && Enabled(s, OWrite(ok))
    ensures Inv(Next(s, OWrite(ok)))
  {
    var t := Next(s, OWrite(ok));
    if s.out.item.Ntfn? {
      assert Committed(s) == [s.out.item.msg] && Committed(t) == [];
      assert t.written + [] == t.written;
      assert s.written <= s.written + Committed(s);
      if ok {
        assert t.written == s.written + Committed(s);
        assert Ahead(s) == Committed(s) && Ahead(t) == [];
      }
    } else {
      assert Committed(t) == Committed(s);
    }
  }

  lemma DrainKeepsInv(s: State)
    requires Inv(s) && Enabled(s, ODrain)
    ensures Inv(Next(s, ODrain))
  {
    var t := Next(s, ODrain);
    if s.sendChan[0].Ntfn? {
      assert |Committed(s)| == |Committed(t)| + 1;
      assert Committed(t) == [];
      assert s.written <= s.written + Committed(s);
    } else {
      assert Committed(t) == Committed(s);
    }
  }

  lemma EnqueueKeepsInv(s: State, m: Msg)
    requires Inv(s) && Enabled(s, Enqueue(m))
    ensures Inv(Next(s, Enqueue(m)))
  {
    var t := Next(s, Enqueue(m));
    assert Committed(t) == Committed(s);
    assert s.queued <= t.queued;
    if !s.disconnected {
      assert InOrder(t) by {
        var front := s.written + Ahead(s) + s.pending;
        assert front + s.ntfnChan + [m] == front + (s.ntfnChan + [m]);
      }
    }
  }

  lemma StepKeepsInv(s: State, a: Action)
    requires Inv(s) && Enabled(s, a)
    ensures Inv(Next(s, a))
  {
    match a {
      case Enqueue(m) => EnqueueKeepsInv(s, m);
      case SendReply(m) =>
        NtfnsAppend(s.sendChan, Reply(m));
        assert Committed(Next(s, a)) == Committed(s);
      case QTake => TakeKeepsInv(s);
      case QDone => DoneKeepsInv(s);
      case QCheck => CheckKeepsInv(s);
      case QPush => PushKeepsInv(s);
      case OTake => OTakeKeepsInv(s);
      case OWrite(ok) => WriteKeepsInv(s, ok);
      case ODrain => DrainKeepsInv(s);
      case _ => OtherKeepsInv(s, a);
    }
  }

  lemma OtherKeepsInv(s: State, a: Action)
    requires Inv(s) && Enabled(s, a)
    requires a.Disconnect? || a.QQuit? || a.QDrainNtfn? || a.QDrainDone? || a.QExit? || a.OAck? || a.OQuit? || a.OExit?
    ensures Inv(Next(s, a))
  {
    assert Committed(Next(s, a)) == Committed(s);
  }

  /** Over every run of the interleaved system. */
  lemma {:induction false} RunKeepsInv(actions: seq<Action>)
    requires Run(actions).Reached?
    ensures Inv(Run(actions).state)
    decreases |actions|
  {
    if actions != [] {
      RunKeepsInv(actions[..|actions| - 1]);
      StepKeepsInv(Run(actions[..|actions| - 1]).state, actions[|actions| - 1]);
    }
  }

  /** What reaches the socket is always a prefix of what was queued, and for a connected
      client nothing of the rest is lost or reordered. */
  lemma WrittenIsPrefixOfQueued(actions: seq<Action>)
    requires Run(actions).Reached?
    ensures var s := Run(actions).state;
      && s.written <= s.queued
      && (!s.disconnected ==> s.queued == s.written + Ahead(s) + s.pending + s.ntfnChan)
  {
    RunKeepsInv(actions);
    var s := Run(actions).state;
    assert s.written <= s.written + Committed(s);
  }

  /** At most one notification is under way or acknowledged at a time, exactly one while the
      queue handler of a connected client waits, so the one-slot done channel is empty whenever
      someone is about to send on it: no done send ever blocks. */
  lemma DoneSendsNeverBlock(actions: seq<Action>)
    requires Run(actions).Reached?
    ensures var s := Run(actions).state;
      && InFlight(s) <= 1
      && (!s.disconnected ==> (s.waiting <==> InFlight(s) == 1))
      && (s.q.QChecking? ==> Enabled(s, QCheck))
      && (s.out.OAcking? || s.out.ODrainAcking? ==> Enabled(s, OAck))
  {
    RunKeepsInv(actions);
  }

  // ---- Nothing is stranded ----

  /** The steps by which the handlers move notifications on. */
  predicate Forwards(a: Action) {
    a.QTake? || a.QDone? || a.QCheck? || a.QPush? || a.OTake? || a == OWrite(true) || a.OAck?
  }

  lemma NothingInEmpty(s: State)
    requires s.sendChan == []
    ensures NtfnsIn(s.sendChan) == []
  {
  }

  /** While a connected client has not been sent everything, some such step can happen. */
  lemma SomethingForwards(s: State)
    requires Inv(s) && !s.disconnected && s.written != s.queued
    ensures exists a :: Forwards(a) && Enabled(s, a)
  {
    var a :=
      if s.out.OWriting? then OWrite(true)
      else if s.out.OAcking? then OAck
      else if s.sendChan != [] then OTake
      else if s.q.QChecking? then QCheck
      else if s.q.QSending? then QPush
      else if s.ntfnChan != [] then QTake
      else QDone;
    if s.sendChan == [] {
      NothingInEmpty(s);
    }
    if a.QDone? {
      assert Ahead(s) == [] && s.pending != [] by {
        assert s.written + [] + [] + [] == s.written;
      }
      assert s.waiting && |s.sent| == 1;
    }
    assert Forwards(a) && Enabled(s, a);
  }

  /** How much is left to do. */
  function Work(s: State): nat {
    7 * |s.ntfnChan| + 6 * |s.pending| + 4 * |s.sendChan| + |s.sent|
    + (if s.q.QChecking? then 6 else if s.q.QSending? then 5 else 0)
    + (if s.out.OWriting? then 3 else if s.out.OAcking? then 2 else 0)
  }

  /** Each such step leaves less to do, so that without a disconnect and without new messages
      everything queued is written after finitely many of them. */
  lemma ForwardsShrinks(s: State, a: Action)
    requires Inv(s) && !s.disconnected && Forwards(a) && Enabled(s, a)
    ensures Work(Next(s, a)) < Work(s) && !Next(s, a).disconnected && Next(s, a).queued == s.queued
  {
  }

  /** These steps, one after the other, lead from one state to another. */
  predicate Leads(s: State, actions: seq<Action>, end: State)
    decreases |actions|
  {
    if actions == [] then end == s
    else Forwards(actions[0]) && Enabled(s, actions[0]) && Leads(Next(s, actions[0]), actions[1..], end)
  }

  /** Forwarding steps, no more than `Work` of them, bring a connected client to a state in which
      everything queued is written. */
  lemma {:induction false} EverythingIsWritten(s: State) returns (actions: seq<Action>, end: State)
    requires Inv(s) && !s.disconnected
    ensures Leads(s, actions, end) && |actions| <= Work(s)
    ensures Inv(end) && !end.disconnected && end.written == end.queued == s.queued
    decreases Work(s)
  {
    if s.written == s.queued {
      return [], s;
    }
    SomethingForwards(s);
    var a :| Forwards(a) && Enabled(s, a);
    ForwardsShrinks(s, a);
    StepKeepsInv(s, a);
    var rest;
    rest, end := EverythingIsWritten(Next(s, a));
    actions := [a] + rest;
    assert actions[1..] == rest;
  }

  /** No choice of forwarding steps can go on for longer, and one that cannot be continued has
      written everything. */
  lemma {:induction false} ForwardingEnds(s: State, actions: seq<Action>, end: State)
    requires Inv(s) && !s.disconnected && Leads(s, actions, end)
    ensures |actions| + Work(end) <= Work(s) && Inv(end) && !end.disconnected && end.queued == s.queued
    ensures (forall a :: Forwards(a) ==> !Enabled(end, a)) ==> end.written == end.queued
    decreases |actions|
  {
    if actions != [] {
      ForwardsShrinks(s, actions[0]);
      StepKeepsInv(s, actions[0]);
      ForwardingEnds(Next(s, actions[0]), actions[1..], end);
    } else if s.written != s.queued {
      SomethingForwards(s);
    }
  }
}
