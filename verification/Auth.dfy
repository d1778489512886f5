/** Authentication and dispatch of websocket requests, sent singly or in batches. */
module Auth {
  import opened Wire

  /** The protocol version a request names, when it names one of the valid ones. */
  datatype Version = V1 | V2 | NoVersion

  /** A request id; one that is neither a number nor a string cannot be sent back. */
  datatype Id = NoId | GoodId(id: nat) | BadId

  /** What decoding yields.  `cmp` and `limitcmp` compare the credentials with those of the
      administrator and of the limited user. */
  datatype Request =
    | Unparsable
    | Malformed(version: Version, id: Id)
    | Notification
    | BadCommand(version: Version, id: Id)
    | Authenticate(version: Version, id: Id, cmp: bool, limitcmp: bool)
    | Command(version: Version, id: Id, name: string, resultEncodes: bool)

  datatype Body = ParseError | InvalidRequest | CommandError | Accepted | NotAuthorized | Result | EmptyBatch

  datatype Reply = Reply(version: Version, id: Id, body: Body)

  /** A message read from the connection: a request, or an array that decodes or does not. */
  datatype Message = Single(request: Request) | Batch(requests: seq<Request>) | BrokenBatch

  datatype Payload = One(reply: Reply) | Many(replies: seq<Reply>) | Blank

  /** The read loop runs, has closed the connection, or has returned leaving it open. */
  datatype Reader = Reading | Disconnected | Stalled

  datatype Session = Session(authenticated: bool, isAdmin: bool, reader: Reader)

  /** A command that was run, with the rights of the client at that moment. */
  datatype Dispatch = Dispatch(command: Request, authenticated: bool, isAdmin: bool)

  const LIMITED: set<string> := {
    "loadtxfilter", "notifyblocks", "notifynewtransactions", "notifyreceived", "notifyspent",
    "rescan", "rescanblocks", "session", "help", "createrawtransaction", "decoderawtransaction",
    "decodescript", "estimatefee", "getbestblock", "getbestblockhash", "getblock", "getblockcount",
    "getblockhash", "getblockheader", "getchaintips", "getcfilter", "getcfilterheader",
    "getcurrentnet", "getdifficulty", "getheaders", "getinfo", "getnettotals", "getnetworkhashps",
    "getrawmempool", "getrawtransaction", "gettxout", "invalidateblock", "reconsiderblock",
    "searchrawtransactions", "sendrawtransaction", "submitblock", "uptime", "validateaddress",
    "verifymessage", "version"
  }

  predicate Limited(name: string) {
    name in LIMITED
  }

  /** Encoding refuses an unknown version and an id of the wrong type. */
  function Encode(version: Version, id: Id, body: Body): Option<Reply> {
    if version == NoVersion || id == BadId then None else Some(Reply(version, id, body))
  }

  predicate Encodes(r: Request)
    requires r.Command?
  {
    r.version != NoVersion && r.id != BadId && r.resultEncodes
  }

  function ToSeq<T>(o: Option<T>): seq<T> {
    if o.Some? then [o.value] else []
  }

  // ----- what a request does to the session -----

  function Next(s: Session, r: Request): Session {
    if s.reader != Reading || r.Malformed? then s
    else if r.Authenticate? then
      if !s.authenticated && (r.cmp || r.limitcmp) then Session(true, r.cmp, Reading)
      else s.(reader := Disconnected)
    else if s.authenticated then s
    else s.(reader := Disconnected)
  }

  predicate Allowed(s: Session, r: Request) {
    r.Command? && s.reader == Reading && s.authenticated && (s.isAdmin || Limited(r.name))
  }

  function SessionAfter(s: Session, reqs: seq<Request>): Session
    decreases |reqs|
  {
    if reqs == [] then s else SessionAfter(Next(s, reqs[0]), reqs[1..])
  }

  function Dispatched(s: Session, reqs: seq<Request>): seq<Dispatch>
    decreases |reqs|
  {
    if reqs == [] then []
    else if Allowed(s, reqs[0]) then
      [Dispatch(reqs[0], s.authenticated, s.isAdmin)] + Dispatched(Next(s, reqs[0]), reqs[1..])
    else Dispatched(Next(s, reqs[0]), reqs[1..])
  }

  // ----- the same in a batch, where a reply that cannot be encoded ends the read loop -----

  predicate Jams(s: Session, r: Request) {
    Allowed(s, r) && !Encodes(r)
  }

  function BatchNext(s: Session, r: Request): Session {
    if Jams(s, r) then s.(reader := Stalled) else Next(s, r)
  }

  function BatchAfter(s: Session, reqs: seq<Request>): Session
    decreases |reqs|
  {
    if reqs == [] then s else BatchAfter(BatchNext(s, reqs[0]), reqs[1..])
  }

  function BatchDispatched(s: Session, reqs: seq<Request>): seq<Dispatch>
    decreases |reqs|
  {
    if reqs == [] then []
    else if Allowed(s, reqs[0]) then
      [Dispatch(reqs[0], s.authenticated, s.isAdmin)] + BatchDispatched(BatchNext(s, reqs[0]), reqs[1..])
    else BatchDispatched(BatchNext(s, reqs[0]), reqs[1..])
  }

  // ----- replies -----

  function SingleReply(s: Session, r: Request): Option<Reply> {
    if s.reader != Reading then None
    else match r
      case Unparsable => if s.authenticated then Some(Reply(V1, NoId, ParseError)) else None
      case Malformed(v, id) => Encode(v, id, InvalidRequest)
      case Notification => None
      case BadCommand(v, id) => if s.authenticated then Encode(v, id, CommandError) else None
      case Authenticate(v, id, _, _) => if Next(s, r).reader == Reading then Encode(v, id, Accepted) else None
      case Command(v, id, _, _) => if Allowed(s, r) && Encodes(r) then Encode(v, id, Result) else None
  }

  function BatchReply(s: Session, r: Request): Option<Reply> {
    if s.reader != Reading then None
    else match r
      case Unparsable => if s.authenticated then Some(Reply(V2, NoId, InvalidRequest)) else None
      case Malformed(v, id) => Encode(v, id, InvalidRequest)
      case Notification => None
      case BadCommand(v, id) => if s.authenticated then Encode(v, id, CommandError) else None
      case Authenticate(v, id, _, _) => if Next(s, r).reader == Reading then Encode(v, id, Accepted) else None
      case Command(v, id, _, _) =>
        if !s.authenticated then None
        else if !Allowed(s, r) then Encode(v, id, NotAuthorized)
        else if Encodes(r) then Encode(v, id, Result)
        else None
  }

  function BatchReplies(s: Session, reqs: seq<Request>): seq<Reply>
    decreases |reqs|
  {
    if reqs == [] then []
    else ToSeq(BatchReply(s, reqs[0])) + BatchReplies(BatchNext(s, reqs[0]), reqs[1..])
  }

  /** A batch is answered in one message, and only if the read loop goes on. */
  function BatchPayload(s: Session, reqs: seq<Request>): seq<Payload> {
    if BatchAfter(s, reqs).reader != Reading then []
    else if BatchReplies(s, reqs) == [] then [Blank]
    else [Many(BatchReplies(s, reqs))]
  }

  // ----- messages -----

  /** The requests of a message; an array without usable entries counts as undecodable. */
  function Requests(m: Message): seq<Request> {
    match m
    case Single(r) => [r]
    case Batch(rs) => if rs == [] then [Unparsable] else rs
    case BrokenBatch => [Unparsable]
  }

  function AllRequests(ms: seq<Message>): seq<Request> {
    if ms == [] then [] else Requests(ms[0]) + AllRequests(ms[1..])
  }

  function MessageAfter(s: Session, m: Message): Session {
    if m.Batch? then BatchAfter(s, Requests(m)) else SessionAfter(s, Requests(m))
  }

  function MessageDispatched(s: Session, m: Message): seq<Dispatch> {
    if m.Batch? then BatchDispatched(s, Requests(m)) else Dispatched(s, Requests(m))
  }

  /** What is sent in answer to a message. */
  function MessageSent(s: Session, m: Message): seq<Payload> {
    match m
    case Single(r) => if SingleReply(s, r).Some? then [One(SingleReply(s, r).value)] else []
    case Batch(rs) =>
      if rs != [] then BatchPayload(s, rs)
      else if Next(s, Unparsable).reader == Reading then [One(Reply(V2, NoId, EmptyBatch))] else []
    case BrokenBatch => if Next(s, Unparsable).reader == Reading then [One(Reply(V2, NoId, ParseError))] else []
  }

  function RunSent(s: Session, ms: seq<Message>): seq<Payload>
    decreases |ms|
  {
    if ms == [] then [] else MessageSent(s, ms[0]) + RunSent(MessageAfter(s, ms[0]), ms[1..])
  }

  function RunAfter(s: Session, ms: seq<Message>): Session
    decreases |ms|
  {
    if ms == [] then s else RunAfter(MessageAfter(s, ms[0]), ms[1..])
  }

  function RunDispatched(s: Session, ms: seq<Message>): seq<Dispatch>
    decreases |ms|
  {
    if ms == [] then [] else MessageDispatched(s, ms[0]) + RunDispatched(MessageAfter(s, ms[0]), ms[1..])
  }

  lemma OneRequest(s: Session, r: Request)
    ensures SessionAfter(s, [r]) == Next(s, r) && BatchAfter(s, [r]) == BatchNext(s, r)
    ensures Dispatched(s, [r]) == BatchDispatched(s, [r])
    ensures Dispatched(s, [r]) == if Allowed(s, r) then [Dispatch(r, s.authenticated, s.isAdmin)] else []
  {
    assert [r][1..] == [];
  }

  /** One message of a run, after what was dispatched and sent before. */
  lemma RunStep(s: Session, ms: seq<Message>, i: nat, dispatched: seq<Dispatch>, sent: seq<Payload>)
    requires i < |ms|
    ensures
      var next := MessageAfter(s, ms[i]);
      && RunAfter(s, ms[i..]) == RunAfter(next, ms[i + 1..])
      && dispatched + RunDispatched(s, ms[i..])
         == (dispatched + MessageDispatched(s, ms[i])) + RunDispatched(next, ms[i + 1..])
      && sent + RunSent(s, ms[i..]) == (sent + MessageSent(s, ms[i])) + RunSent(next, ms[i + 1..])
  {
    assert ms[i..][1..] == ms[i + 1..];
  }

  /** One entry of a batch, after what was dispatched and replied before. */
  lemma BatchStep(s: Session, reqs: seq<Request>, i: nat, dispatched: seq<Dispatch>, results: seq<Reply>)
    requires i < |reqs|
    ensures
      var next := BatchNext(s, reqs[i]);
      var d := if Allowed(s, reqs[i]) then dispatched + [Dispatch(reqs[i], s.authenticated, s.isAdmin)] else dispatched;
      && BatchAfter(s, reqs[i..]) == BatchAfter(next, reqs[i + 1..])
      && dispatched + BatchDispatched(s, reqs[i..]) == d + BatchDispatched(next, reqs[i + 1..])
      && results + BatchReplies(s, reqs[i..])
         == (results + ToSeq(BatchReply(s, reqs[i]))) + BatchReplies(next, reqs[i + 1..])
  {
    assert reqs[i..][1..] == reqs[i + 1..];
  }

  /** One websocket client. */
  class WsClient {
    var session: Session
    var dispatched: seq<Dispatch>
    var sent: seq<Payload>

    constructor (authenticated: bool, isAdmin: bool)
      ensures session == Session(authenticated, isAdmin, Reading) && dispatched == [] && sent == []
    {
      session, dispatched, sent := Session(authenticated, isAdmin, Reading), [], [];
    }

    method Leave()
      modifies this`session
      ensures session == old(session).(reader := Disconnected)
    {
      session := session.(reader := Disconnected);
    }

    method Send(reply: Option<Reply>)
      modifies this`sent
      ensures sent == old(sent) + (if reply.Some? then [One(reply.value)] else [])
    {
      if reply.Some? {
        sent := sent + [One(reply.value)];
      }
    }

    /** A request in a message of its own. */
    method HandleSingle(r: Request)
      requires session.reader == Reading
      modifies this
      ensures session == Next(old(session), r)
      ensures dispatched == old(dispatched) + Dispatched(old(session), [r])
      ensures sent == old(sent) + (if SingleReply(old(session), r).Some?
                                   then [One(SingleReply(old(session), r).value)] else [])
    {
      OneRequest(session, r);
      if r.Unparsable? {
        if !session.authenticated {
          Leave();
          return;
        }
        Send(Encode(V1, NoId, ParseError));
        return;
      }
      if r.Malformed? {
        Send(Encode(r.version, r.id, InvalidRequest));
        return;
      }
      if r.Notification? {
        if !session.authenticated {
          Leave();
        }
        return;
      }
      if r.BadCommand? {
        if !session.authenticated {
          Leave();
          return;
        }
        Send(Encode(r.version, r.id, CommandError));
        return;
      }
      if session.authenticated && r.Authenticate? {
        Leave();
        return;
      }
      if !session.authenticated && !r.Authenticate? {
        Leave();
        return;
      }
      if !session.authenticated {
        if !r.cmp && !r.limitcmp {
          Leave();
          return;
        }
        session := Session(true, r.cmp, Reading);
        Send(Encode(r.version, r.id, Accepted));
        return;
      }
      if !session.isAdmin && r.name !in LIMITED {
        Send(Encode(NoVersion, r.id, NotAuthorized));
        return;
      }
      dispatched := dispatched + [Dispatch(r, session.authenticated, session.isAdmin)];
      if r.resultEncodes {
        Send(Encode(r.version, r.id, Result));
      }
    }

    /** One entry of a batch. */
    method HandleEntry(r: Request) returns (results: seq<Reply>)
      requires session.reader == Reading
      modifies this`session, this`dispatched
      ensures session == BatchNext(old(session), r)
      ensures dispatched == if Allowed(old(session), r)
                            then old(dispatched) + [Dispatch(r, old(session).authenticated, old(session).isAdmin)]
                            else old(dispatched)
      ensures results == ToSeq(BatchReply(old(session), r))
    {
      if r.Unparsable? {
        if !session.authenticated {
          Leave();
          return [];
        }
        return ToSeq(Encode(V2, NoId, InvalidRequest));
      }
      if r.Malformed? {
        return ToSeq(Encode(r.version, r.id, InvalidRequest));
      }
      if r.Notification? {
        if !session.authenticated {
          Leave();
        }
        return [];
      }
      if r.BadCommand? {
        if !session.authenticated {
          Leave();
          return [];
        }
        return ToSeq(Encode(r.version, r.id, CommandError));
      }
      if session.authenticated && r.Authenticate? {
        Leave();
        return [];
      }
      if !session.authenticated && !r.Authenticate? {
        Leave();
        return [];
      }
      if !session.authenticated {
        if !r.cmp && !r.limitcmp {
          Leave();
          return [];
        }
        session := Session(true, r.cmp, Reading);
        return ToSeq(Encode(r.version, r.id, Accepted));
      }
      if !session.isAdmin && r.name !in LIMITED {
        return ToSeq(Encode(r.version, r.id, NotAuthorized));
      }
      dispatched := dispatched + [Dispatch(r, session.authenticated, session.isAdmin)];
      var reply := if r.resultEncodes then Encode(r.version, r.id, Result) else None;
      if reply.None? {
        session := session.(reader := Stalled);
        return [];
      }
      return [reply.value];
    }

    /** A batch: the entries in order, then one message with the collected replies. */
    method HandleBatch(reqs: seq<Request>)
      requires session.reader == Reading && reqs != []
      modifies this
      ensures session == BatchAfter(old(session), reqs)
      ensures dispatched == old(dispatched) + BatchDispatched(old(session), reqs)
      ensures sent == old(sent) + BatchPayload(old(session), reqs)
    {
      var results := [];
      var i := 0;
      while i < |reqs| && session.reader == Reading
        invariant 0 <= i <= |reqs| && sent == old(sent)
        invariant BatchAfter(session, reqs[i..]) == BatchAfter(old(session), reqs)
        invariant dispatched + BatchDispatched(session, reqs[i..])
               == old(dispatched) + BatchDispatched(old(session), reqs)
        invariant results + BatchReplies(session, reqs[i..]) == BatchReplies(old(session), reqs)
      {
        BatchStep(session, reqs, i, dispatched, results);
        var more := HandleEntry(reqs[i]);
        results := results + more;
        i := i + 1;
      }
      if session.reader != Reading {
        NothingMore(session, reqs[i..]);
        assert BatchPayload(old(session), reqs) == [];
        return;
      }
      assert reqs[i..] == [] && BatchReplies(old(session), reqs) == results;
      sent := sent + [if results == [] then Blank else Many(results)];
    }

    /** An array that does not decode, or an empty one. */
    method HandleUnusable(body: Body)
      requires session.reader == Reading
      modifies this
      ensures session == Next(old(session), Unparsable) && dispatched == old(dispatched)
      ensures sent == if session.reader == Reading then old(sent) + [One(Reply(V2, NoId, body))] else old(sent)
    {
      if !session.authenticated {
        Leave();
        return;
      }
      sent := sent + [One(Reply(V2, NoId, body))];
    }

    method HandleMessage(m: Message)
      requires session.reader == Reading
      modifies this
      ensures session == MessageAfter(old(session), m)
      ensures dispatched == old(dispatched) + MessageDispatched(old(session), m)
      ensures sent == old(sent) + MessageSent(old(session), m)
    {
      OneRequest(session, Unparsable);
      match m
      case Single(r) =>
        OneRequest(session, r);
        HandleSingle(r);
      case BrokenBatch => HandleUnusable(ParseError);
      case Batch(rs) =>
        if rs == [] {
          HandleUnusable(EmptyBatch);
        } else {
          HandleBatch(rs);
        }
    }

    /** Every command that was run was allowed to the client that sent it. */
    ghost predicate Authorized()
      reads this
    {
      forall d :: d in dispatched ==> IsAuthorized(d)
    }

    /** The read loop over everything the connection delivers. */
    method InHandler(ms: seq<Message>)
      requires Authorized()
      modifies this
      ensures session == RunAfter(old(session), ms)
      ensures dispatched == old(dispatched) + RunDispatched(old(session), ms)
      ensures sent == old(sent) + RunSent(old(session), ms)
      ensures Authorized()
    {
      var i := 0;
      while i < |ms| && session.reader == Reading
        invariant 0 <= i <= |ms|
        invariant RunAfter(session, ms[i..]) == RunAfter(old(session), ms)
        invariant dispatched + RunDispatched(session, ms[i..]) == old(dispatched) + RunDispatched(old(session), ms)
        invariant sent + RunSent(session, ms[i..]) == old(sent) + RunSent(old(session), ms)
      {
        RunStep(session, ms, i, dispatched, sent);
        HandleMessage(ms[i]);
        i := i + 1;
      }
      if session.reader != Reading {
        NoMoreMessages(session, ms[i..]);
      }
      RunIsAuthorized(old(session), ms);
    }
  }

  /** Nothing happens once the read loop is over. */
  lemma {:induction false} NothingMore(s: Session, reqs: seq<Request>)
    requires s.reader != Reading
    ensures BatchAfter(s, reqs) == s && BatchDispatched(s, reqs) == [] && BatchReplies(s, reqs) == []
    ensures SessionAfter(s, reqs) == s && Dispatched(s, reqs) == []
    decreases |reqs|
  {
    if reqs != [] {
      NothingMore(s, reqs[1..]);
    }
  }

  // ----- batches against single requests -----

  /** Some entry of the run is dispatched and its reply cannot be encoded. */
  predicate SomeJam(s: Session, reqs: seq<Request>)
    decreases |reqs|
  {
    reqs != [] && (Jams(s, reqs[0]) || SomeJam(Next(s, reqs[0]), reqs[1..]))
  }

  lemma {:induction false} NoJamAgrees(s: Session, reqs: seq<Request>)
    requires !SomeJam(s, reqs)
    ensures BatchAfter(s, reqs) == SessionAfter(s, reqs)
    ensures BatchDispatched(s, reqs) == Dispatched(s, reqs)
    decreases |reqs|
  {
    if reqs != [] {
      NoJamAgrees(Next(s, reqs[0]), reqs[1..]);
    }
  }

  lemma {:induction false} NeverStallsSingly(s: Session, reqs: seq<Request>)
    requires s.reader != Stalled
    ensures SessionAfter(s, reqs).reader != Stalled
    decreases |reqs|
  {
    if reqs != [] {
      NeverStallsSingly(Next(s, reqs[0]), reqs[1..]);
    }
  }

  lemma {:induction false} JamStalls(s: Session, reqs: seq<Request>)
    requires SomeJam(s, reqs)
    ensures BatchAfter(s, reqs).reader == Stalled
    decreases |reqs|
  {
    if Jams(s, reqs[0]) {
      NothingMore(BatchNext(s, reqs[0]), reqs[1..]);
    } else {
      JamStalls(Next(s, reqs[0]), reqs[1..]);
    }
  }

  /** One batch leaves the client in the same state and dispatches the same commands in the
      same order as the requests sent singly, exactly when no dispatched command has a reply
      that cannot be encoded. */
  lemma BatchAgreesIff(s: Session, reqs: seq<Request>)
    requires s.reader == Reading
    ensures BatchAfter(s, reqs) == SessionAfter(s, reqs) && BatchDispatched(s, reqs) == Dispatched(s, reqs)
       <==> !SomeJam(s, reqs)
  {
    NeverStallsSingly(s, reqs);
    if SomeJam(s, reqs) {
      JamStalls(s, reqs);
    } else {
      NoJamAgrees(s, reqs);
    }
  }

  /** A batch whose requests leave out the protocol version stops after its first command. */
  lemma JammedBatch()
    ensures
      var s, r := Session(true, true, Reading), Command(NoVersion, GoodId(1), "getinfo", true);
      |Dispatched(s, [r, r])| == 2 && |BatchDispatched(s, [r, r])| == 1
      && SessionAfter(s, [r, r]) == s && BatchAfter(s, [r, r]).reader == Stalled && BatchPayload(s, [r, r]) == []
  {
    var s, r := Session(true, true, Reading), Command(NoVersion, GoodId(1), "getinfo", true);
    assert [r, r][1..] == [r] && [r][1..] == [];
    OneRequest(s, r);
    NothingMore(BatchNext(s, r), [r]);
  }

  /** A batch that leaves the read loop running is answered entry by entry as single requests
      are, except that an entry that does not decode gets another error, and that a command
      refused to a limited user is answered at all. */
  lemma RepliesDifferIff(s: Session, r: Request)
    ensures SingleReply(s, r) != BatchReply(s, r) <==>
      && s.reader == Reading && s.authenticated
      && (r.Unparsable? || (r.Command? && !Allowed(s, r) && r.version != NoVersion && r.id != BadId))
  {
  }

  /** The whole of every single reply: a request that can be answered gets its own version and id
      back, with the body its kind calls for. */
  lemma SingleReplyIff(s: Session, r: Request, v: Version, id: Id, body: Body)
    ensures SingleReply(s, r) == Some(Reply(v, id, body)) <==>
      && s.reader == Reading
      && (|| (r == Unparsable && s.authenticated && v == V1 && id == NoId && body == ParseError)
          || (r == Malformed(v, id) && Sendable(v, id) && body == InvalidRequest)
          || (r == BadCommand(v, id) && Sendable(v, id) && s.authenticated && body == CommandError)
          || (LogsIn(s, r, v, id) && Sendable(v, id) && body == Accepted)
          || (IsCommand(r, v, id) && Sendable(v, id) && MayRun(s, r) && r.resultEncodes && body == Result))
  {
  }

  /** The whole of every reply to an entry of a batch. */
  lemma BatchReplyIff(s: Session, r: Request, v: Version, id: Id, body: Body)
    ensures BatchReply(s, r) == Some(Reply(v, id, body)) <==>
      && s.reader == Reading
      && (|| (r == Unparsable && s.authenticated && v == V2 && id == NoId && body == InvalidRequest)
          || (r == Malformed(v, id) && Sendable(v, id) && body == InvalidRequest)
          || (r == BadCommand(v, id) && Sendable(v, id) && s.authenticated && body == CommandError)
          || (LogsIn(s, r, v, id) && Sendable(v, id) && body == Accepted)
          || (IsCommand(r, v, id) && Sendable(v, id) && s.authenticated && !MayRun(s, r) && body == NotAuthorized)
          || (IsCommand(r, v, id) && Sendable(v, id) && MayRun(s, r) && r.resultEncodes && body == Result))
  {
  }

  predicate Sendable(v: Version, id: Id) {
    (v == V1 || v == V2) && (id == NoId || id.GoodId?)
  }

  predicate LogsIn(s: Session, r: Request, v: Version, id: Id) {
    !s.authenticated && (r == Authenticate(v, id, true, true) || r == Authenticate(v, id, true, false)
                         || r == Authenticate(v, id, false, true))
  }

  predicate IsCommand(r: Request, v: Version, id: Id) {
    r.Command? && r.version == v && r.id == id
  }

  predicate MayRun(s: Session, r: Request)
    requires r.Command?
  {
    s.authenticated && (s.isAdmin || r.name in LIMITED)
  }

  /** The positions of the entries of a batch that are answered, the first being `at`. */
  function Answered(s: Session, reqs: seq<Request>, at: nat): seq<nat>
    decreases |reqs|
  {
    if reqs == [] then []
    else (if BatchReply(s, reqs[0]).Some? then [at] else []) + Answered(BatchNext(s, reqs[0]), reqs[1..], at + 1)
  }

  /** A reply that belongs to this request. */
  predicate Answers(r: Request, reply: Reply) {
    match r
    case Unparsable => reply == Reply(V2, NoId, InvalidRequest)
    case Notification => false
    case Malformed(v, id) => reply == Reply(v, id, InvalidRequest)
    case BadCommand(v, id) => reply == Reply(v, id, CommandError)
    case Authenticate(v, id, _, _) => reply == Reply(v, id, Accepted)
    case Command(v, id, _, _) => reply == Reply(v, id, Result) || reply == Reply(v, id, NotAuthorized)
  }

  /** The replies belong to the requests at these positions, which increase. */
  predicate Paired(reqs: seq<Request>, at: nat, replies: seq<Reply>, answered: seq<nat>) {
    && |replies| == |answered|
    && (forall p :: 0 <= p < |replies| ==> at <= answered[p] < at + |reqs|)
    && (forall p :: 0 <= p < |replies| ==>
          at <= answered[p] < at + |reqs| && Answers(reqs[answered[p] - at], replies[p]))
    && (forall p, q :: 0 <= p < q < |answered| ==> answered[p] < answered[q])
  }

  /** The replies to a batch answer different entries, in the order of the batch, and each carries
      the version and id of its own. */
  lemma {:induction false} RepliesInOrder(s: Session, reqs: seq<Request>, at: nat)
    ensures Paired(reqs, at, BatchReplies(s, reqs), Answered(s, reqs, at))
    decreases |reqs|
  {
    if reqs != [] {
      var next := BatchNext(s, reqs[0]);
      RepliesInOrder(next, reqs[1..], at + 1);
      FirstAnswered(s, reqs[0], reqs, at, BatchReplies(next, reqs[1..]), Answered(next, reqs[1..], at + 1));
    }
  }

  lemma FirstAnswered(
    s: Session, r: Request, reqs: seq<Request>, at: nat, replies: seq<Reply>, answered: seq<nat>)
    requires reqs != [] && reqs[0] == r && Paired(reqs[1..], at + 1, replies, answered)
    ensures Paired(reqs, at, ToSeq(BatchReply(s, r)) + replies,
                   (if BatchReply(s, r).Some? then [at] else []) + answered)
  {
    if BatchReply(s, r).Some? {
      var reply := BatchReply(s, r).value;
      BatchReplyIff(s, r, reply.version, reply.id, reply.body);
      PairedMore(reqs, at, reply, replies, answered);
    } else {
      PairedLater(reqs, at, replies, answered);
      assert [] + replies == replies && [] + answered == answered;
    }
  }

  lemma PairedLater(reqs: seq<Request>, at: nat, replies: seq<Reply>, answered: seq<nat>)
    requires reqs != [] && Paired(reqs[1..], at + 1, replies, answered)
    ensures Paired(reqs, at, replies, answered)
  {
    forall p | 0 <= p < |replies|
      ensures at <= answered[p] < at + |reqs| && Answers(reqs[answered[p] - at], replies[p])
    {
      assert reqs[1..][answered[p] - at - 1] == reqs[answered[p] - at];
    }
  }

  lemma PairedMore(reqs: seq<Request>, at: nat, reply: Reply, replies: seq<Reply>, answered: seq<nat>)
    requires reqs != [] && Paired(reqs[1..], at + 1, replies, answered) && Answers(reqs[0], reply)
    ensures Paired(reqs, at, [reply] + replies, [at] + answered)
  {
    PairedLater(reqs, at, replies, answered);
  }

  /** A limited user asks for something allowed and something refused, singly and in a batch. */
  lemma LimitedUserReplies(allowed: string, refused: string)
    requires allowed in LIMITED && refused !in LIMITED
    ensures
      var s := Session(true, false, Reading);
      var ask, halt := Command(V1, GoodId(1), allowed, true), Command(V2, GoodId(2), refused, true);
      && MessageSent(s, Single(ask)) == [One(Reply(V1, GoodId(1), Result))] && MessageSent(s, Single(halt)) == []
      && MessageSent(s, Batch([ask, halt]))
         == [Many([Reply(V1, GoodId(1), Result), Reply(V2, GoodId(2), NotAuthorized)])]
  {
    var s := Session(true, false, Reading);
    var ask, halt := Command(V1, GoodId(1), allowed, true), Command(V2, GoodId(2), refused, true);
    assert BatchNext(s, ask) == s && BatchNext(s, halt) == s;
    assert [ask, halt][1..] == [halt] && [halt][1..] == [];
    assert BatchReplies(s, [halt]) == [Reply(V2, GoodId(2), NotAuthorized)];
    assert BatchReplies(s, [ask, halt]) == [Reply(V1, GoodId(1), Result)] + BatchReplies(s, [halt]);
    assert BatchReplies(s, [ask, halt]) == [Reply(V1, GoodId(1), Result), Reply(V2, GoodId(2), NotAuthorized)];
    assert BatchAfter(s, [halt]) == s && BatchAfter(s, [ask, halt]) == s;
    assert SingleReply(s, ask) == Some(Reply(V1, GoodId(1), Result)) && SingleReply(s, halt) == None;
    assert MessageSent(s, Batch([ask, halt])) == BatchPayload(s, [ask, halt]);
  }

  /** Messages without a request to answer, from a client that is logged in and one that is not. */
  lemma UnusableReplies(s: Session)
    requires s.reader == Reading
    ensures s.authenticated ==>
      && MessageSent(s, Single(Unparsable)) == [One(Reply(V1, NoId, ParseError))]
      && MessageSent(s, BrokenBatch) == [One(Reply(V2, NoId, ParseError))]
      && MessageSent(s, Batch([])) == [One(Reply(V2, NoId, EmptyBatch))]
      && MessageSent(s, Single(Notification)) == [] && MessageSent(s, Batch([Notification])) == [Blank]
    ensures !s.authenticated ==>
      forall m :: m in [Single(Unparsable), BrokenBatch, Batch([]), Single(Notification), Batch([Notification])] ==>
        MessageSent(s, m) == [] && MessageAfter(s, m) == s.(reader := Disconnected)
  {
    assert [Notification][1..] == [] && [Unparsable][1..] == [];
  }

  // ----- any grouping of requests into messages -----

  lemma NoMoreMessages(s: Session, ms: seq<Message>)
    requires s.reader != Reading
    ensures RunAfter(s, ms) == s && RunDispatched(s, ms) == [] && RunSent(s, ms) == []
    decreases |ms|
  {
    if ms != [] {
      NothingMore(s, Requests(ms[0]));
      NoMoreMessages(s, ms[1..]);
    }
  }

  predicate IsAuthorized(d: Dispatch) {
    d.command.Command? && d.authenticated && (d.isAdmin || Limited(d.command.name))
  }

  lemma {:induction false} DispatchedIsAuthorized(s: Session, reqs: seq<Request>)
    ensures forall d :: d in Dispatched(s, reqs) ==> IsAuthorized(d)
    ensures forall d :: d in BatchDispatched(s, reqs) ==> IsAuthorized(d)
    decreases |reqs|
  {
    if reqs != [] {
      DispatchedIsAuthorized(Next(s, reqs[0]), reqs[1..]);
      DispatchedIsAuthorized(BatchNext(s, reqs[0]), reqs[1..]);
    }
  }

  lemma {:induction false} RunIsAuthorized(s: Session, ms: seq<Message>)
    ensures forall d :: d in RunDispatched(s, ms) ==> IsAuthorized(d)
    decreases |ms|
  {
    if ms != [] {
      DispatchedIsAuthorized(s, Requests(ms[0]));
      RunIsAuthorized(MessageAfter(s, ms[0]), ms[1..]);
    }
  }

  lemma {:induction false} AfterBoth(s: Session, a: seq<Request>, b: seq<Request>)
    ensures SessionAfter(s, a + b) == SessionAfter(SessionAfter(s, a), b)
    ensures Dispatched(s, a + b) == Dispatched(s, a) + Dispatched(SessionAfter(s, a), b)
    decreases |a|
  {
    if a == [] {
      assert a + b == b;
    } else {
      assert (a + b)[1..] == a[1..] + b;
      AfterBoth(Next(s, a[0]), a[1..], b);
    }
  }

  /** Some batch of the run jams. */
  predicate SomeBatchJams(s: Session, ms: seq<Message>)
    decreases |ms|
  {
    ms != [] &&
    ((ms[0].Batch? && SomeJam(s, Requests(ms[0]))) || SomeBatchJams(SessionAfter(s, Requests(ms[0])), ms[1..]))
  }

  /** However requests are grouped into messages, the client ends in the same state and the
      same commands are dispatched in the same order, exactly when no batch jams. */
  lemma {:induction false} GroupingIrrelevantIff(s: Session, ms: seq<Message>)
    requires s.reader != Stalled
    ensures
      RunAfter(s, ms) == SessionAfter(s, AllRequests(ms)) && RunDispatched(s, ms) == Dispatched(s, AllRequests(ms))
      <==> !SomeBatchJams(s, ms)
    ensures SomeBatchJams(s, ms) ==> RunAfter(s, ms).reader == Stalled
    decreases |ms|
  {
    NeverStallsSingly(s, AllRequests(ms));
    if ms != [] {
      var reqs := Requests(ms[0]);
      AfterBoth(s, reqs, AllRequests(ms[1..]));
      if ms[0].Batch? && SomeJam(s, reqs) {
        JamStalls(s, reqs);
        NoMoreMessages(BatchAfter(s, reqs), ms[1..]);
      } else {
        if ms[0].Batch? {
          NoJamAgrees(s, reqs);
        }
        NeverStallsSingly(s, reqs);
        GroupingIrrelevantIff(SessionAfter(s, reqs), ms[1..]);
      }
    }
  }

  // ----- who gets to run a command -----

  predicate AllMalformed(reqs: seq<Request>) {
    forall i :: 0 <= i < |reqs| ==> reqs[i].Malformed?
  }

  /** Entry j is the login: only malformed requests come before it, its credentials match,
      and no later entry tries to authenticate. */
  predicate LoginAt(reqs: seq<Request>, j: nat) {
    && j < |reqs| && AllMalformed(reqs[..j])
    && reqs[j].Authenticate? && (reqs[j].cmp || reqs[j].limitcmp)
    && forall i :: j < i < |reqs| ==> !reqs[i].Authenticate?
  }

  const ANONYMOUS: Session := Session(false, false, Reading)

  lemma AfterOneMore(s: Session, reqs: seq<Request>)
    requires reqs != []
    ensures SessionAfter(s, reqs) == Next(SessionAfter(s, reqs[..|reqs| - 1]), reqs[|reqs| - 1])
  {
    var n := |reqs| - 1;
    assert reqs == reqs[..n] + [reqs[n]];
    AfterBoth(s, reqs[..n], [reqs[n]]);
    assert SessionAfter(SessionAfter(s, reqs[..n]), [reqs[n]]) == Next(SessionAfter(s, reqs[..n]), reqs[n]);
  }

  /** The state of a client that came without credentials, from the requests alone. */
  lemma {:induction false} LoggedInIff(reqs: seq<Request>, isAdmin: bool)
    ensures SessionAfter(ANONYMOUS, reqs) == ANONYMOUS <==> AllMalformed(reqs)
    ensures SessionAfter(ANONYMOUS, reqs) == Session(true, isAdmin, Reading)
       <==> exists j: nat :: LoginAt(reqs, j) && reqs[j].cmp == isAdmin
    ensures SessionAfter(ANONYMOUS, reqs).authenticated || !SessionAfter(ANONYMOUS, reqs).isAdmin
    decreases |reqs|
  {
    if reqs != [] {
      var n := |reqs| - 1;
      var front := reqs[..n];
      AfterOneMore(ANONYMOUS, reqs);
      LoggedInIff(front, isAdmin);
      forall j: nat | j < n
        ensures LoginAt(reqs, j) <==> LoginAt(front, j) && !reqs[n].Authenticate?
      {
        assert reqs[..j] == front[..j];
      }
      if SessionAfter(ANONYMOUS, front) == Session(true, isAdmin, Reading) && !reqs[n].Authenticate? {
        var j: nat :| LoginAt(front, j) && front[j].cmp == isAdmin;
        assert LoginAt(reqs, j);
      }
      assert LoginAt(reqs, n) <==>
        AllMalformed(front) && reqs[n].Authenticate? && (reqs[n].cmp || reqs[n].limitcmp);
    }
  }

  /** A command of a client that came without credentials is run exactly when a login precedes
      it, and that login was the administrator's or the command is open to the limited user. */
  lemma RunsIff(reqs: seq<Request>, command: Request)
    requires command.Command?
    ensures Allowed(SessionAfter(ANONYMOUS, reqs), command) <==>
      exists j: nat :: LoginAt(reqs, j) && (reqs[j].cmp || Limited(command.name))
  {
    LoggedInIff(reqs, true);
    LoggedInIff(reqs, false);
    var s := SessionAfter(ANONYMOUS, reqs);
    if Allowed(s, command) {
      assert s == Session(true, s.isAdmin, Reading);
    }
    if j: nat :| LoginAt(reqs, j) && (reqs[j].cmp || Limited(command.name)) {
      assert s == Session(true, reqs[j].cmp, Reading);
    }
  }
}
