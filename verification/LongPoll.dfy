/** Long polling for block templates: a map of waiter channels that are closed when the
    template they wait on becomes stale. */
module LongPoll {
  import opened Wire

  /** A time in whole seconds. */
  datatype Unix = Unix(seconds: int)

  /** What a waiter waits on: the parent block and the Unix time of its template. */
  datatype Key = Key(hash: Hash, generated: Unix)

  type NotifyMap = map<Hash, map<Unix, Chan>>

  const NANOS: int := 1_000_000_000

  /** An instant in nanoseconds since the Unix epoch. */
  datatype Time = Time(nanos: int) {
    function Seconds(): Unix { Unix(nanos / NANOS) }

    /** The zero time is the first instant of year 1. */
    predicate IsZero() { nanos == -62135596800 * NANOS }
  }

  const REGENERATE_NANOS: int := 60 * NANOS

  predicate Long(now: Time, since: Time) {
    now.nanos > since.nanos + REGENERATE_NANOS
  }

  /** A waiter is woken when its block is not the latest one, or when its template is older
      than the given time, if that time was ever set. */
  predicate Stale(key: Key, latest: Hash, since: Time) {
    key.hash != latest || (!since.IsZero() && key.generated.seconds < since.Seconds().seconds)
  }

  // ----- the map and the channels -----

  /** The channels in the map are the open ones, each under its own key. */
  ghost predicate Matches(m: NotifyMap, keyOf: map<Chan, Key>, closed: set<Chan>) {
    && (forall h, g :: h in m && g in m[h] ==>
          m[h][g] in keyOf && keyOf[m[h][g]] == Key(h, g) && m[h][g] !in closed)
    && (forall c :: c in keyOf && c !in closed ==>
          keyOf[c].hash in m && keyOf[c].generated in m[keyOf[c].hash]
          && m[keyOf[c].hash][keyOf[c].generated] == c)
  }

  ghost predicate NoneEmpty(m: NotifyMap) {
    forall h :: h in m ==> m[h] != map[]
  }

  ghost function StaleChans(keyOf: map<Chan, Key>, latest: Hash, since: Time): set<Chan> {
    set c | c in keyOf && Stale(keyOf[c], latest, since)
  }

  ghost function ChansAt(channels: map<Unix, Chan>, times: set<Unix>): set<Chan> {
    set g | g in channels && g in times :: channels[g]
  }

  ghost function OnOthers(keyOf: map<Chan, Key>, latest: Hash, todo: set<Hash>): set<Chan> {
    set c | c in keyOf && keyOf[c].hash != latest && keyOf[c].hash !in todo
  }

  ghost function OlderOn(keyOf: map<Chan, Key>, latest: Hash, since: Unix, todo: set<Unix>): set<Chan> {
    set c | c in keyOf && keyOf[c].hash == latest && keyOf[c].generated.seconds < since.seconds
            && keyOf[c].generated !in todo
  }

  lemma OneMoreChan(channels: map<Unix, Chan>, todo: set<Unix>, g: Unix)
    requires g in todo && g in channels
    ensures ChansAt(channels, channels.Keys - (todo - {g})) == ChansAt(channels, channels.Keys - todo) + {channels[g]}
  {
  }

  lemma StaleParts(keyOf: map<Chan, Key>, latest: Hash, since: Time)
    ensures StaleChans(keyOf, latest, since)
         == OnOthers(keyOf, latest, {}) + if since.IsZero() then {} else OlderOn(keyOf, latest, since.Seconds(), {})
  {
  }

  lemma NoneEmptyBut(m: NotifyMap, h: Hash)
    ensures NoneEmpty(m) <==> NoneEmpty(m - {h}) && (h in m ==> m[h] != map[])
  {
    forall k | k in m && k != h
      ensures k in m - {h} && (m - {h})[k] == m[k]
    {
    }
  }

  /** All of these channels can be closed, one after the other. */
  ghost predicate Closable(channels: map<Unix, Chan>, closed: set<Chan>) {
    && (forall g :: g in channels ==> channels[g] !in closed)
    && (forall g, g' :: g in channels && g' in channels && g != g' ==> channels[g] != channels[g'])
  }

  /** What is not in the map is closed already. */
  lemma AbsentIsClosed(m: NotifyMap, keyOf: map<Chan, Key>, closed: set<Chan>, latest: Hash, since: Unix)
    requires Matches(m, keyOf, closed)
    ensures OnOthers(keyOf, latest, m.Keys) <= closed
    ensures OlderOn(keyOf, latest, since, if latest in m then m[latest].Keys else {}) <= closed
  {
  }

  /** Closing and dropping everything under h. */
  lemma DropHash(m: NotifyMap, keyOf: map<Chan, Key>, closed0: set<Chan>, closed: set<Chan>,
                 latest: Hash, todo: set<Hash>, h: Hash)
    requires Matches(m, keyOf, closed) && h in m && h in todo && h != latest
    requires closed == closed0 + OnOthers(keyOf, latest, todo)
    ensures Closable(m[h], closed) && Matches(m - {h}, keyOf, closed + m[h].Values)
    ensures closed + m[h].Values == closed0 + OnOthers(keyOf, latest, todo - {h})
  {
    forall c | c in OnOthers(keyOf, latest, todo - {h})
      ensures c in closed + m[h].Values
    {
      if c !in closed {
        assert m[h][keyOf[c].generated] == c;
      }
    }
  }

  /** Closing and dropping the waiters of one template. */
  lemma DropGenerated(m: NotifyMap, keyOf: map<Chan, Key>, closed0: set<Chan>, closed: set<Chan>,
                      latest: Hash, since: Unix, todo: set<Unix>, g: Unix)
    requires Matches(m, keyOf, closed) && latest in m && g in m[latest] && g in todo && g.seconds < since.seconds
    requires closed == closed0 + OlderOn(keyOf, latest, since, todo)
    ensures Matches(m[latest := m[latest] - {g}], keyOf, closed + {m[latest][g]})
    ensures closed + {m[latest][g]} == closed0 + OlderOn(keyOf, latest, since, todo - {g})
  {
    forall c | c in OlderOn(keyOf, latest, since, todo - {g})
      ensures c in closed + {m[latest][g]}
    {
      if c !in closed {
        assert m[latest][keyOf[c].generated] == c;
      }
    }
  }

  lemma DropEmpty(m: NotifyMap, keyOf: map<Chan, Key>, closed: set<Chan>, h: Hash)
    requires Matches(m, keyOf, closed) && h in m && m[h] == map[]
    ensures Matches(m - {h}, keyOf, closed)
  {
  }

  lemma AddChan(m: NotifyMap, keyOf: map<Chan, Key>, closed: set<Chan>, key: Key, c: Chan)
    requires Matches(m, keyOf, closed) && c !in keyOf && c !in closed
    requires key.hash in m ==> key.generated !in m[key.hash]
    ensures
      var inner := if key.hash in m then m[key.hash] else map[];
      Matches(m[key.hash := inner[key.generated := c]], keyOf[c := key], closed)
  {
  }

  lemma AddedNotEmpty(m: NotifyMap, h: Hash, inner: map<Unix, Chan>)
    requires NoneEmpty(m) && inner != map[]
    ensures NoneEmpty(m[h := inner])
  {
  }

  // ----- the chain around it -----

  /** A block is accepted, possibly as the new tip, and its notification is started; or
      invalidateblock or reconsiderblock moves the tip, which notifies nobody. */
  datatype ChainMove = Accept(block: Hash, best: bool) | Reselect(block: Hash)

  /** The chain and the notifications around the waiters. */
  datatype ChainState = ChainState(tip: Hash, accepted: set<Hash>, pending: multiset<Hash>, orderly: bool)

  function Step(s: ChainState, m: ChainMove): ChainState {
    match m
    case Accept(b, best) =>
      ChainState(if best then b else s.tip, s.accepted + {b}, s.pending + multiset{b}, s.orderly && b !in s.accepted)
    case Reselect(b) => ChainState(b, s.accepted + {b}, s.pending, false)
  }

  function Steps(s: ChainState, ms: seq<ChainMove>): ChainState {
    if ms == [] then s else Step(Steps(s, ms[..|ms| - 1]), ms[|ms| - 1])
  }

  lemma {:induction false} StepsConcat(s: ChainState, a: seq<ChainMove>, b: seq<ChainMove>)
    ensures Steps(s, a + b) == Steps(Steps(s, a), b)
    decreases |b|
  {
    if b == [] {
      assert a + b == a;
    } else {
      assert (a + b)[..|a + b| - 1] == a + b[..|b| - 1];
      StepsConcat(s, a, b[..|b| - 1]);
    }
  }

  /** What the calls made while a template is updated return, and what the chain does
      meanwhile: before the generator reads the tip, and after. */
  datatype Update = Update(
    lastUpdated: Time, nowIfZero: Time, nowCheck: Time, nowGenerated: Time,
    before: seq<ChainMove>, generated: bool, after: seq<ChainMove>, payScript: bool)
  {
    /** The time of the last change of the memory pool, or now when there was none. */
    function LastTx(): Time { if lastUpdated.IsZero() then nowIfZero else lastUpdated }
  }

  datatype Event =
    | ChainMoved(move: ChainMove)
    | BlockNotified(block: Hash)
    | MempoolNotified(now: Time, lastUpdated: Time)
    | TemplateAsked(update: Update, useCoinbaseValue: bool)
    | LongPolled(update: Update, id: Option<Key>, useCoinbaseValue: bool)
    | LongPollWoken(update: Update, key: Key, useCoinbaseValue: bool)

  predicate IsRequest(e: Event) {
    e.TemplateAsked? || e.LongPolled? || e.LongPollWoken?
  }

  /** How the chain moves while an event is handled. */
  function MovesOf(e: Event): seq<ChainMove> {
    match e
    case ChainMoved(m) => [m]
    case BlockNotified(_) => []
    case MempoolNotified(_, _) => []
    case TemplateAsked(u, _) => u.before + u.after
    case LongPolled(u, _, _) => u.before + u.after
    case LongPollWoken(u, _, _) => u.before + u.after
  }

  function AfterEvent(s: ChainState, e: Event): ChainState {
    if e.BlockNotified? then s.(pending := s.pending - multiset{e.block}) else Steps(s, MovesOf(e))
  }

  function AfterEvents(s: ChainState, events: seq<Event>, n: nat): ChainState
    requires n <= |events|
  {
    if n == 0 then s else AfterEvent(AfterEvents(s, events, n - 1), events[n - 1])
  }

  // ----- runs in which every block is new and notified -----

  /** The blocks accepted by these moves. */
  function Blocks(ms: seq<ChainMove>): set<Hash> {
    if ms == [] then {}
    else Blocks(ms[..|ms| - 1]) + if ms[|ms| - 1].Accept? then {ms[|ms| - 1].block} else {}
  }

  function BlocksUpTo(events: seq<Event>, n: nat): set<Hash>
    requires n <= |events|
  {
    if n == 0 then {} else BlocksUpTo(events, n - 1) + Blocks(MovesOf(events[n - 1]))
  }

  /** Nothing but accepted blocks, each of them new at its turn. */
  predicate AllNew(ms: seq<ChainMove>, seen: set<Hash>) {
    ms == [] ||
    var init, m := ms[..|ms| - 1], ms[|ms| - 1];
    AllNew(init, seen) && m.Accept? && m.block !in seen && m.block !in Blocks(init)
  }

  predicate NewThroughout(events: seq<Event>, n: nat, seen: set<Hash>)
    requires n <= |events|
  {
    n == 0 ||
    (NewThroughout(events, n - 1, seen) && AllNew(MovesOf(events[n - 1]), seen + BlocksUpTo(events, n - 1)))
  }

  predicate Accepts(e: Event, b: Hash) {
    b in Blocks(MovesOf(e))
  }

  /** A block was accepted and its notification has not come since. */
  predicate Unnotified(events: seq<Event>, n: nat, b: Hash)
    requires n <= |events|
  {
    n > 0 && (Accepts(events[n - 1], b) || (events[n - 1] != BlockNotified(b) && Unnotified(events, n - 1, b)))
  }

  lemma {:induction false} NotifiedSince(events: seq<Event>, n: nat, b: Hash)
    requires n <= |events|
    requires forall k :: 0 <= k < n && Accepts(events[k], b) ==> exists j :: k < j < n && events[j] == BlockNotified(b)
    ensures !Unnotified(events, n, b)
  {
    if Unnotified(events, n, b) {
      var _ := LastAccepted(events, n, b);
    }
  }

  lemma {:induction false} LastAccepted(events: seq<Event>, n: nat, b: Hash) returns (k: nat)
    requires n <= |events| && Unnotified(events, n, b)
    ensures k < n && Accepts(events[k], b) && forall j :: k < j < n ==> events[j] != BlockNotified(b)
  {
    if Accepts(events[n - 1], b) {
      k := n - 1;
    } else {
      k := LastAccepted(events, n - 1, b);
    }
  }

  /** A run in which every block is new stays orderly. */
  lemma {:induction false} StaysOrderly(s: ChainState, events: seq<Event>, n: nat)
    requires n <= |events| && s.orderly && NewThroughout(events, n, s.accepted)
    ensures AfterEvents(s, events, n).orderly
    ensures AfterEvents(s, events, n).accepted == s.accepted + BlocksUpTo(events, n)
  {
    if n > 0 {
      StaysOrderly(s, events, n - 1);
      var before := AfterEvents(s, events, n - 1);
      NewEvent(before, events[n - 1]);
      assert AfterEvents(s, events, n) == AfterEvent(before, events[n - 1]);
    }
  }

  lemma NewEvent(s: ChainState, e: Event)
    requires s.orderly && AllNew(MovesOf(e), s.accepted)
    ensures AfterEvent(s, e).orderly && AfterEvent(s, e).accepted == s.accepted + Blocks(MovesOf(e))
  {
    NewSteps(s, MovesOf(e));
  }

  /** From a quiet state, exactly the blocks without their notification are pending, once each. */
  lemma {:induction false} PendingIff(s: ChainState, events: seq<Event>, n: nat, b: Hash)
    requires n <= |events| && s.orderly && s.pending == multiset{} && NewThroughout(events, n, s.accepted)
    ensures AfterEvents(s, events, n).pending[b] == if Unnotified(events, n, b) then 1 else 0
  {
    if n > 0 {
      PendingIff(s, events, n - 1, b);
      StaysOrderly(s, events, n - 1);
      AcceptedBefore(events, n - 1, b);
      if Accepts(events[n - 1], b) {
        NewIsUnseen(MovesOf(events[n - 1]), s.accepted + BlocksUpTo(events, n - 1), b);
      }
      PendingAfter(AfterEvents(s, events, n - 1), events[n - 1], b);
    }
  }

  /** What one event does to one pending block. */
  lemma PendingAfter(s: ChainState, e: Event, b: Hash)
    requires s.orderly && AllNew(MovesOf(e), s.accepted)
    ensures AfterEvent(s, e).pending[b] ==
      if e == BlockNotified(b) then (if b in s.pending then s.pending[b] - 1 else 0)
      else s.pending[b] + if Accepts(e, b) then 1 else 0
  {
    NewSteps(s, MovesOf(e));
    if !e.BlockNotified? {
      NewPending(s, MovesOf(e), b);
    }
  }

  lemma {:induction false} AcceptedBefore(events: seq<Event>, n: nat, b: Hash)
    requires n <= |events|
    ensures Unnotified(events, n, b) ==> b in BlocksUpTo(events, n)
  {
    if n > 0 {
      AcceptedBefore(events, n - 1, b);
    }
  }

  lemma {:induction false} NewIsUnseen(ms: seq<ChainMove>, seen: set<Hash>, b: Hash)
    requires AllNew(ms, seen) && b in Blocks(ms)
    ensures b !in seen
  {
    if b != ms[|ms| - 1].block {
      NewIsUnseen(ms[..|ms| - 1], seen, b);
    }
  }

  /** Accepting new blocks. */
  lemma {:induction false} NewSteps(s: ChainState, ms: seq<ChainMove>)
    requires s.orderly && AllNew(ms, s.accepted)
    ensures Steps(s, ms).orderly && Steps(s, ms).accepted == s.accepted + Blocks(ms)
  {
    if ms != [] {
      NewSteps(s, ms[..|ms| - 1]);
    }
  }

  /** They all become pending, once each. */
  lemma {:induction false} NewPending(s: ChainState, ms: seq<ChainMove>, b: Hash)
    requires s.orderly && AllNew(ms, s.accepted)
    ensures Steps(s, ms).pending[b] == s.pending[b] + if b in Blocks(ms) then 1 else 0
  {
    if ms != [] {
      NewPending(s, ms[..|ms| - 1], b);
    }
  }

  /** The tip is the last block that became it. */
  lemma {:induction false} TipIsLast(s: ChainState, ms: seq<ChainMove>, k: nat)
    requires k < |ms| && (ms[k].Accept? ==> ms[k].best)
    requires forall j :: k < j < |ms| ==> ms[j].Accept? && !ms[j].best
    ensures Steps(s, ms).tip == ms[k].block
  {
    if k < |ms| - 1 {
      TipIsLast(s, ms[..|ms| - 1], k);
    }
  }

  datatype Outcome = Failed | Now(submitOld: Option<bool>) | Wait(c: Chan)

  /** A block that is the tip, or that some notification still to run differs from. */
  ghost predicate Covered(h: Hash, tip: Hash, accepted: set<Hash>, pending: multiset<Hash>) {
    h in accepted && (h == tip || exists p :: p in pending && p != h)
  }

  ghost predicate AllCovered(
    keyOf: map<Chan, Key>, closed: set<Chan>, tip: Hash, accepted: set<Hash>, pending: multiset<Hash>)
  {
    forall c :: c in keyOf && c !in closed ==> Covered(keyOf[c].hash, tip, accepted, pending)
  }

  lemma CoveredWithMore(keyOf: map<Chan, Key>, closed: set<Chan>, more: set<Chan>,
                        tip: Hash, accepted: set<Hash>, pending: multiset<Hash>)
    requires AllCovered(keyOf, closed, tip, accepted, pending) && closed <= more
    ensures AllCovered(keyOf, more, tip, accepted, pending)
  {
  }

  lemma CoveredWithNew(keyOf: map<Chan, Key>, closed: set<Chan>, c: Chan, key: Key,
                       tip: Hash, accepted: set<Hash>, pending: multiset<Hash>)
    requires AllCovered(keyOf, closed, tip, accepted, pending) && Covered(key.hash, tip, accepted, pending)
    ensures AllCovered(keyOf[c := key], closed, tip, accepted, pending)
  {
  }

  /** When no notification is left to run, every open waiter is on the tip. */
  lemma QuietMeansOnTip(
    keyOf: map<Chan, Key>, closed: set<Chan>, tip: Hash, accepted: set<Hash>, pending: multiset<Hash>, c: Chan)
    requires AllCovered(keyOf, closed, tip, accepted, pending) && pending == multiset{}
    requires c in keyOf && c !in closed
    ensures keyOf[c].hash == tip
  {
    assert Covered(keyOf[c].hash, tip, accepted, pending);
  }

  /** Every open waiter is on the tip or is woken by one of the pending notifications. */
  ghost predicate WillBeOnTip(
    keyOf: map<Chan, Key>, closed: set<Chan>, tip: Hash, pending: multiset<Hash>, since: Time)
  {
    forall c :: c in keyOf && c !in closed ==> keyOf[c].hash == tip || WokenBy(keyOf[c], pending, since)
  }

  ghost predicate WokenBy(key: Key, pending: multiset<Hash>, since: Time) {
    exists p :: p in pending && Stale(key, p, since)
  }

  lemma WokenByLess(key: Key, pending: multiset<Hash>, since: Time, b: Hash)
    requires b in pending && !Stale(key, b, since)
    ensures WokenBy(key, pending - multiset{b}, since) <==> WokenBy(key, pending, since)
  {
    if p :| p in pending && Stale(key, p, since) {
      assert p in pending - multiset{b};
    }
  }

  /** Running one notification neither dooms nor saves a waiter. */
  lemma NotifiedKeepsFate(
    keyOf: map<Chan, Key>, closed: set<Chan>, tip: Hash, pending: multiset<Hash>, since: Time, b: Hash)
    requires b in pending
    ensures WillBeOnTip(keyOf, closed + StaleChans(keyOf, b, since), tip, pending - multiset{b}, since)
       <==> WillBeOnTip(keyOf, closed, tip, pending, since)
  {
    forall c | c in keyOf && !Stale(keyOf[c], b, since)
      ensures WokenBy(keyOf[c], pending - multiset{b}, since) <==> WokenBy(keyOf[c], pending, since)
    {
      WokenByLess(keyOf[c], pending, since, b);
    }
    forall c | c in keyOf && Stale(keyOf[c], b, since)
      ensures WokenBy(keyOf[c], pending, since)
    {
    }
  }

  lemma NothingPendingFate(keyOf: map<Chan, Key>, closed: set<Chan>, tip: Hash, since: Time)
    ensures WillBeOnTip(keyOf, closed, tip, multiset{}, since)
       <==> forall c :: c in keyOf && c !in closed ==> keyOf[c].hash == tip
  {
  }

  /** No open waiter is on a template from before this time. */
  ghost predicate NoneOlder(keyOf: map<Chan, Key>, closed: set<Chan>, generated: Time) {
    forall c :: c in keyOf && c !in closed ==> keyOf[c].generated.seconds >= generated.Seconds().seconds
  }

  /** Every open waiter on the latest block has a template from the second of the new one on, or
      from a second before the memory pool changed. */
  ghost predicate AllWoken(
    keyOf: map<Chan, Key>, closed: set<Chan>, latest: Hash, changed: Time, generated: Time)
  {
    forall c :: c in keyOf && c !in closed && keyOf[c].hash == latest ==>
      || keyOf[c].generated.seconds >= generated.Seconds().seconds
      || (!changed.IsZero() && keyOf[c].generated.seconds < changed.Seconds().seconds)
  }

  lemma OlderLeftIff(keyOf: map<Chan, Key>, closed: set<Chan>, latest: Hash, changed: Time, generated: Time)
    ensures NoneOlder(keyOf, closed + StaleChans(keyOf, latest, changed), generated)
       <==> AllWoken(keyOf, closed, latest, changed, generated)
  {
  }

  class WorkState {
    var notifyMap: NotifyMap
    var prevHash: Option<Hash>
    /** The parent of the block in the current template. */
    var template: Option<Hash>
    var lastGenerated: Time
    var lastTxUpdate: Time

    var nextChan: nat
    var closed: set<Chan>
    /** Every channel ever made, with what it waits on. */
    ghost var keyOf: map<Chan, Key>

    var tip: Hash
    var accepted: set<Hash>
    /** Notifications that were started and have not run yet. */
    var pending: multiset<Hash>
    /** Every tip so far was a newly accepted block. */
    ghost var orderly: bool

    ghost predicate Valid()
      reads this
    {
      && Matches(notifyMap, keyOf, closed) && NoneEmpty(notifyMap) && closed <= keyOf.Keys
      && (forall c :: c in keyOf ==> c.id < nextChan)
      && tip in accepted
    }

    /** No wake-up is lost: an open waiter is on the tip or is going to be woken. */
    ghost predicate Awake()
      reads this
    {
      AllCovered(keyOf, closed, tip, accepted, pending)
    }

    /** A template whose parent is not the recorded previous hash was overtaken by a new tip. */
    ghost predicate TemplateFits()
      reads this
    {
      && (template.Some? ==> template.value in accepted)
      && (prevHash.Some? ==> prevHash.value in accepted && template.Some?)
      && (prevHash.Some? && template != prevHash ==> prevHash.value != tip)
    }

    ghost predicate Good()
      reads this
    {
      Valid() && (orderly ==> Awake() && TemplateFits())
    }

    ghost function Chain(): ChainState
      reads this
    {
      ChainState(tip, accepted, pending, orderly)
    }

    constructor (genesis: Hash, zero: Time)
      requires zero.IsZero()
      ensures Good() && orderly && keyOf == map[] && tip == genesis && pending == multiset{}
      ensures accepted == {genesis} && template == None && prevHash == None
    {
      notifyMap, prevHash, template, lastGenerated, lastTxUpdate := map[], None, None, zero, zero;
      nextChan, closed, keyOf := 0, {}, map[];
      tip, accepted, pending, orderly := genesis, {genesis}, multiset{}, true;
    }

    /** Closing a channel twice would panic. */
    method Close(c: Chan)
      requires c !in closed
      modifies this`closed
      ensures closed == old(closed) + {c}
    {
      closed := closed + {c};
    }

    method CloseAll(channels: map<Unix, Chan>)
      requires Closable(channels, closed)
      modifies this`closed
      ensures closed == old(closed) + channels.Values
    {
      var todo := channels.Keys;
      while todo != {}
        invariant todo <= channels.Keys
        invariant forall g :: g in todo ==> channels[g] !in closed
        invariant closed == old(closed) + ChansAt(channels, channels.Keys - todo)
        decreases |todo|
      {
        var g :| g in todo;
        OneMoreChan(channels, todo, g);
        Close(channels[g]);
        todo := todo - {g};
      }
      assert channels.Keys - todo == channels.Keys;
      assert ChansAt(channels, channels.Keys) == channels.Values;
    }

    /** Wakes the waiters on one block, unless it is the latest. */
    method VisitBlock(h: Hash, latest: Hash, ghost todo: set<Hash>, ghost closed0: set<Chan>)
      requires Matches(notifyMap, keyOf, closed) && NoneEmpty(notifyMap) && todo <= notifyMap.Keys
      requires h in todo && closed == closed0 + OnOthers(keyOf, latest, todo)
      modifies this`notifyMap, this`closed
      ensures Matches(notifyMap, keyOf, closed) && NoneEmpty(notifyMap) && todo - {h} <= notifyMap.Keys
      ensures closed == closed0 + OnOthers(keyOf, latest, todo - {h})
    {
      if h == latest {
        assert OnOthers(keyOf, latest, todo - {h}) == OnOthers(keyOf, latest, todo);
        return;
      }
      DropHash(notifyMap, keyOf, closed0, closed, latest, todo, h);
      NoneEmptyBut(notifyMap, h);
      CloseAll(notifyMap[h]);
      notifyMap := notifyMap - {h};
    }

    /** Wakes the waiters on other blocks. */
    method NotifyOtherBlocks(latest: Hash)
      requires Matches(notifyMap, keyOf, closed) && NoneEmpty(notifyMap)
      modifies this`notifyMap, this`closed
      ensures Matches(notifyMap, keyOf, closed) && NoneEmpty(notifyMap)
      ensures closed == old(closed) + OnOthers(keyOf, latest, {})
    {
      AbsentIsClosed(notifyMap, keyOf, closed, latest, Unix(0));
      var todo := notifyMap.Keys;
      while todo != {}
        invariant Matches(notifyMap, keyOf, closed) && NoneEmpty(notifyMap) && todo <= notifyMap.Keys
        invariant closed == old(closed) + OnOthers(keyOf, latest, todo)
        decreases |todo|
      {
        var h :| h in todo;
        VisitBlock(h, latest, todo, old(closed));
        todo := todo - {h};
      }
    }

    /** Wakes the waiters on the latest block whose template is too old. */
    method NotifyOlder(latest: Hash, since: Unix)
      requires Matches(notifyMap, keyOf, closed) && NoneEmpty(notifyMap)
      modifies this`notifyMap, this`closed
      ensures Matches(notifyMap, keyOf, closed) && NoneEmpty(notifyMap)
      ensures closed == old(closed) + OlderOn(keyOf, latest, since, {})
    {
      AbsentIsClosed(notifyMap, keyOf, closed, latest, since);
      if latest !in notifyMap {
        return;
      }
      NoneEmptyBut(notifyMap, latest);
      CloseOlder(latest, since);
      NoneEmptyBut(notifyMap, latest);
      if notifyMap[latest] == map[] {
        DropEmpty(notifyMap, keyOf, closed, latest);
        notifyMap := notifyMap - {latest};
      }
    }

    method CloseOlder(latest: Hash, since: Unix)
      requires Matches(notifyMap, keyOf, closed) && latest in notifyMap
      modifies this`notifyMap, this`closed
      ensures Matches(notifyMap, keyOf, closed)
      ensures latest in notifyMap && notifyMap - {latest} == old(notifyMap) - {latest}
      ensures closed == old(closed) + OlderOn(keyOf, latest, since, {})
    {
      AbsentIsClosed(notifyMap, keyOf, closed, latest, since);
      var todo := notifyMap[latest].Keys;
      while todo != {}
        invariant Matches(notifyMap, keyOf, closed) && latest in notifyMap && todo <= notifyMap[latest].Keys
        invariant notifyMap - {latest} == old(notifyMap) - {latest}
        invariant closed == old(closed) + OlderOn(keyOf, latest, since, todo)
        decreases |todo|
      {
        var g :| g in todo;
        VisitTime(g, latest, since, todo, old(closed));
        todo := todo - {g};
      }
    }

    /** Wakes the waiters of one template, if it is too old. */
    method VisitTime(g: Unix, latest: Hash, since: Unix, ghost todo: set<Unix>, ghost closed0: set<Chan>)
      requires Matches(notifyMap, keyOf, closed) && latest in notifyMap && todo <= notifyMap[latest].Keys
      requires g in todo && closed == closed0 + OlderOn(keyOf, latest, since, todo)
      modifies this`notifyMap, this`closed
      ensures Matches(notifyMap, keyOf, closed) && latest in notifyMap && todo - {g} <= notifyMap[latest].Keys
      ensures notifyMap - {latest} == old(notifyMap) - {latest}
      ensures closed == closed0 + OlderOn(keyOf, latest, since, todo - {g})
    {
      if g.seconds >= since.seconds {
        assert OlderOn(keyOf, latest, since, todo - {g}) == OlderOn(keyOf, latest, since, todo);
        return;
      }
      DropGenerated(notifyMap, keyOf, closed0, closed, latest, since, todo, g);
      Close(notifyMap[latest][g]);
      notifyMap := notifyMap[latest := notifyMap[latest] - {g}];
    }

    method NotifyLongPollers(latest: Hash, since: Time)
      requires Valid()
      modifies this`notifyMap, this`closed
      ensures Valid()
      ensures closed == old(closed) + StaleChans(keyOf, latest, since)
      ensures forall c :: c in keyOf ==>
        (c in closed <==>
          || c in old(closed) || keyOf[c].hash != latest
          || (!since.IsZero() && keyOf[c].generated.seconds < since.nanos / 1_000_000_000))
    {
      NotifyOtherBlocks(latest);
      StaleParts(keyOf, latest, since);
      if since.IsZero() {
        return;
      }
      NotifyOlder(latest, since.Seconds());
    }

    /** The channel for a template: the one others wait on already, or a new one. */
    method TemplateUpdateChan(key: Key) returns (c: Chan)
      requires Valid()
      modifies this`notifyMap, this`nextChan, this`keyOf
      ensures Valid() && c !in closed && keyOf == old(keyOf)[c := key]
      ensures c !in old(keyOf) ==> forall d :: d in old(keyOf) && d !in closed ==> keyOf[d] != key
    {
      var channels := if key.hash in notifyMap then notifyMap[key.hash] else map[];
      if key.generated in channels {
        return channels[key.generated];
      }
      c := Chan(nextChan);
      nextChan := nextChan + 1;
      AddChan(notifyMap, keyOf, closed, key, c);
      AddedNotEmpty(notifyMap, key.hash, channels[key.generated := c]);
      notifyMap := notifyMap[key.hash := channels[key.generated := c]];
      keyOf := keyOf[c := key];
    }

    method Register(key: Key) returns (c: Chan)
      requires Good() && (orderly ==> Covered(key.hash, tip, accepted, pending))
      modifies this`notifyMap, this`nextChan, this`keyOf
      ensures Good() && c !in closed && keyOf == old(keyOf)[c := key]
    {
      c := TemplateUpdateChan(key);
      if orderly {
        CoveredWithNew(old(keyOf), closed, c, key, tip, accepted, pending);
      }
    }

    // ----- the chain -----

    /** While every tip is a newly accepted block, a block once left is never the tip again,
        and a block that is covered stays so. */
    twostate predicate MovedOn()
      reads this
    {
      && (orderly ==> old(orderly))
      && old(accepted) <= accepted
      && (orderly ==> forall h :: h in old(accepted) && h != old(tip) ==> h != tip)
      && (orderly ==> forall h {:trigger Covered(h, tip, accepted, pending)} ::
            old(Covered(h, tip, accepted, pending)) ==> Covered(h, tip, accepted, pending))
    }

    method Move(m: ChainMove)
      requires Good()
      modifies this`tip, this`accepted, this`pending, this`orderly
      ensures Good() && MovedOn() && Chain() == Step(old(Chain()), m)
    {
      match m
      case Accept(b, best) =>
        orderly := orderly && b !in accepted;
        if best {
          tip := b;
        }
        accepted := accepted + {b};
        pending := pending + multiset{b};
        assert b in pending;
      case Reselect(b) =>
        orderly, tip, accepted := false, b, accepted + {b};
    }

    method Moves(ms: seq<ChainMove>)
      requires Good()
      modifies this`tip, this`accepted, this`pending, this`orderly
      ensures Good() && MovedOn() && Chain() == Steps(old(Chain()), ms)
    {
      for i := 0 to |ms|
        invariant Good() && MovedOn() && Chain() == Steps(old(Chain()), ms[..i])
      {
        assert ms[..i + 1][..i] == ms[..i];
        Move(ms[i]);
      }
      assert ms[..|ms|] == ms;
    }

    // ----- the callers -----

    /** The started notification for an accepted block runs. */
    method NotifyBlockConnected(b: Hash)
      requires Good() && b in pending
      modifies this`notifyMap, this`closed, this`pending
      ensures Good() && pending == old(pending) - multiset{b}
      ensures closed == old(closed) + StaleChans(keyOf, b, lastTxUpdate)
    {
      NotifyLongPollers(b, lastTxUpdate);
      pending := pending - multiset{b};
      forall c | orderly && c in keyOf && c !in closed
        ensures Covered(keyOf[c].hash, tip, accepted, pending)
      {
        assert keyOf[c].hash == b && old(Covered(b, tip, accepted, pending));
        if p :| p in old(pending) && p != b {
          assert p in pending;
        }
      }
    }

    /** Waking waiters leaves nobody uncovered. */
    method WakeStale(latest: Hash, since: Time)
      requires Good()
      modifies this`notifyMap, this`closed
      ensures Good() && closed == old(closed) + StaleChans(keyOf, latest, since)
    {
      if orderly {
        CoveredWithMore(keyOf, closed, closed + StaleChans(keyOf, latest, since), tip, accepted, pending);
      }
      NotifyLongPollers(latest, since);
    }

    method NotifyMempoolTx(now: Time, lastUpdated: Time)
      requires Good()
      modifies this`notifyMap, this`closed
      ensures Good()
      ensures closed == if prevHash.Some? && !lastGenerated.IsZero() && Long(now, lastGenerated)
                        then old(closed) + StaleChans(keyOf, prevHash.value, lastUpdated) else old(closed)
    {
      if prevHash.None? || lastGenerated.IsZero() {
        return;
      }
      if Long(now, lastGenerated) {
        WakeStale(prevHash.value, lastUpdated);
      }
    }

    /** The current template must be replaced. */
    predicate Outdated(u: Update)
      reads this
    {
      || template.None? || prevHash != Some(tip)
      || (lastTxUpdate != u.LastTx() && Long(u.nowCheck, lastGenerated))
    }

    /** Makes a template on the current tip when the old one is outdated, which wakes the
        waiters of the old one, or refreshes the one there is.  The chain may move while the
        lock on this state is held. */
    method UpdateBlockTemplate(u: Update, useCoinbaseValue: bool) returns (ok: bool)
      requires Good()
      modifies this`notifyMap, this`closed, this`tip, this`accepted, this`pending, this`orderly
      modifies this`prevHash, this`template, this`lastGenerated, this`lastTxUpdate
      ensures Good() && (orderly ==> old(orderly))
      ensures ok == if old(Outdated(u)) then u.generated else useCoinbaseValue || u.payScript
      ensures ok ==> template.Some? && (orderly ==> Covered(template.value, tip, accepted, pending))
      ensures ok && orderly && u.before == [] && u.after == [] ==> template == Some(tip)
      ensures Chain() == Steps(old(Chain()), u.before + u.after)
      ensures Updated(u)
    {
      var updated := if u.lastUpdated.IsZero() then u.nowIfZero else u.lastUpdated;
      var latest := tip;
      if template.None? || prevHash != Some(latest) || (lastTxUpdate != updated && Long(u.nowCheck, lastGenerated)) {
        ok := Regenerate(u, updated, latest);
        return;
      }
      Meanwhile(u);
      if !useCoinbaseValue && !u.payScript {
        return false;
      }
      return true;
    }

    /** A template on the tip is kept exactly while the memory pool is as it was or 60 seconds
        have not passed. */
    lemma KeptIff(u: Update)
      requires template.Some? && prevHash == Some(tip)
      ensures !Outdated(u) <==>
        || lastTxUpdate == (if u.lastUpdated.nanos == -62135596800_000_000_000 then u.nowIfZero else u.lastUpdated)
        || u.nowCheck.nanos <= lastGenerated.nanos + 60_000_000_000
    {
    }

    /** The chain moves while a template is refreshed. */
    method Meanwhile(u: Update)
      requires Good()
      modifies this`tip, this`accepted, this`pending, this`orderly
      ensures Good() && MovedOn() && Chain() == Steps(old(Chain()), u.before + u.after)
    {
      StepsConcat(Chain(), u.before, u.after);
      Moves(u.before);
      Moves(u.after);
    }

    /** The template is replaced exactly when it is outdated. */
    twostate predicate Updated(u: Update)
      reads this
    {
      if old(Outdated(u)) then Renewed(u, old(tip), u.generated) else Untouched()
    }

    /** Template and waiters are as before. */
    twostate predicate Untouched()
      reads this
    {
      && template == old(template) && prevHash == old(prevHash) && closed == old(closed)
      && lastGenerated == old(lastGenerated) && lastTxUpdate == old(lastTxUpdate)
    }

    /** A template on the block the generator read is recorded against `latest`, and its
        predecessors' waiters are woken; or none could be made, and the next call will try again. */
    twostate predicate Renewed(u: Update, latest: Hash, ok: bool)
      reads this
    {
      if ok then
        && Recorded(u, latest) && template == Some(Steps(old(Chain()), u.before).tip)
        && closed == old(closed) + StaleChans(old(keyOf), latest, u.LastTx())
      else
        && prevHash == None && template == old(template) && closed == old(closed)
        && lastGenerated == old(lastGenerated) && lastTxUpdate == old(lastTxUpdate)
    }

    /** The details of a new template are recorded. */
    predicate Recorded(u: Update, latest: Hash)
      reads this
    {
      prevHash == Some(latest) && lastGenerated == u.nowGenerated && lastTxUpdate == u.LastTx()
    }

    method Regenerate(u: Update, updated: Time, latest: Hash) returns (ok: bool)
      requires Good() && latest == tip && updated == u.LastTx()
      modifies this`notifyMap, this`closed, this`tip, this`accepted, this`pending, this`orderly
      modifies this`prevHash, this`template, this`lastGenerated, this`lastTxUpdate
      ensures Good() && (orderly ==> old(orderly))
      ensures ok == u.generated && Renewed(u, latest, ok)
      ensures ok ==> template.Some? && (orderly ==> Covered(template.value, tip, accepted, pending))
      ensures Chain() == Steps(old(Chain()), u.before + u.after)
    {
      StepsConcat(Chain(), u.before, u.after);
      prevHash := None;
      Moves(u.before);
      var parent := tip;
      Moves(u.after);
      if !u.generated {
        return false;
      }
      Install(parent, u.nowGenerated, updated, latest);
      return true;
    }

    method Install(parent: Hash, now: Time, updated: Time, latest: Hash)
      requires Good() && (orderly ==> parent in accepted && latest in accepted && (parent != latest ==> latest != tip))
      modifies this`notifyMap, this`closed, this`prevHash, this`template, this`lastGenerated, this`lastTxUpdate
      ensures Good() && template == Some(parent) && lastGenerated == now && lastTxUpdate == updated
      ensures prevHash == Some(latest) && closed == old(closed) + StaleChans(keyOf, latest, updated)
    {
      template, lastGenerated, lastTxUpdate, prevHash := Some(parent), now, updated, Some(latest);
      WakeStale(latest, updated);
    }

    /** A request that names the template its caller has, when the name decodes. */
    method HandleLongPoll(u: Update, id: Option<Key>, useCoinbaseValue: bool) returns (r: Outcome)
      requires Good()
      modifies this
      ensures Good() && (orderly ==> old(orderly)) && old(closed) <= closed && old(keyOf).Keys <= keyOf.Keys
      ensures r.Wait? ==> id.Some? && r.c in keyOf && r.c !in closed && keyOf[r.c] == id.value
      ensures r.Wait? ==> template == Some(id.value.hash) && lastGenerated.Seconds() == id.value.generated
      ensures r.Now? ==> r.submitOld == if id.Some? then Some(template == Some(id.value.hash)) else None
      ensures r.Now? && id.Some? ==> template.Some? && id != Some(Key(template.value, lastGenerated.Seconds()))
      ensures u.generated && (useCoinbaseValue || u.payScript) ==> !r.Failed?
      ensures !r.Failed? && orderly && u.before == [] && u.after == [] ==> template == Some(tip)
      ensures Updated(u) && Chain() == Steps(old(Chain()), u.before + u.after)
      ensures keyOf == if r.Wait? then old(keyOf)[r.c := id.value] else old(keyOf)
      ensures r.Failed? <==> !(if old(Outdated(u)) then u.generated else useCoinbaseValue || u.payScript)
    {
      var ok := UpdateBlockTemplate(u, useCoinbaseValue);
      if !ok {
        return Failed;
      }
      if id.None? {
        return Now(None);
      }
      var key := id.value;
      if key.hash != template.value || key.generated != lastGenerated.Seconds() {
        return Now(Some(key.hash == template.value));
      }
      var c := Register(key);
      return Wait(c);
    }

    /** The rest of a request that has been woken: the latest template, and whether work on the
        old one may still be submitted. */
    method FinishLongPoll(u: Update, key: Key, useCoinbaseValue: bool) returns (r: Outcome)
      requires Good()
      modifies this`notifyMap, this`closed, this`tip, this`accepted, this`pending, this`orderly
      modifies this`prevHash, this`template, this`lastGenerated, this`lastTxUpdate
      ensures Good() && (orderly ==> old(orderly)) && old(closed) <= closed
      ensures r == if !(if old(Outdated(u)) then u.generated else useCoinbaseValue || u.payScript) then Failed
                   else Now(Some(template == Some(key.hash)))
      ensures r.Now? ==> template.Some? && (orderly ==> Covered(template.value, tip, accepted, pending))
      ensures Updated(u) && Chain() == Steps(old(Chain()), u.before + u.after)
    {
      var ok := UpdateBlockTemplate(u, useCoinbaseValue);
      if !ok {
        return Failed;
      }
      return Now(Some(key.hash == template.value));
    }

    // ----- when no waiter is left behind -----

    /** Every open waiter is on the tip. */
    ghost predicate AllOnTip()
      reads this
    {
      forall c :: c in keyOf && c !in closed ==> keyOf[c].hash == tip
    }

    /** Runs all pending notifications, in whatever order.  However the tip got where it is,
        every open waiter is then on the tip exactly when each one was on the tip before or some
        pending notification wakes it. */
    method RunPending()
      requires Good()
      modifies this`notifyMap, this`closed, this`pending
      ensures Good() && pending == multiset{} && old(closed) <= closed
      ensures AllOnTip() <==> old(WillBeOnTip(keyOf, closed, tip, pending, lastTxUpdate))
    {
      while pending != multiset{}
        invariant Good() && old(closed) <= closed
        invariant WillBeOnTip(keyOf, closed, tip, pending, lastTxUpdate)
             <==> old(WillBeOnTip(keyOf, closed, tip, pending, lastTxUpdate))
        decreases |pending|
      {
        var b :| b in pending;
        NotifiedKeepsFate(keyOf, closed, tip, pending, lastTxUpdate, b);
        NotifyBlockConnected(b);
      }
      NothingPendingFate(keyOf, closed, tip, lastTxUpdate);
    }

    /** invalidateblock or reconsiderblock, when all waiters are on the tip and nothing is
        pending: nobody is left behind exactly when the tip stays or nobody waits. */
    method Reselected(b: Hash)
      requires Good() && orderly && pending == multiset{}
      modifies this`tip, this`accepted, this`pending, this`orderly
      ensures Good() && tip == b && pending == multiset{}
      ensures AllOnTip() <==> b == old(tip) || forall c :: c in keyOf ==> c in closed
    {
      forall c | c in keyOf && c !in closed
        ensures keyOf[c].hash == tip
      {
        QuietMeansOnTip(keyOf, closed, tip, accepted, pending, c);
      }
      Move(Reselect(b));
    }

    /** A new template replaces the old one.  No open waiter is left on an older template exactly
        when each waiter on the tip has a template from a second before the last change of the
        memory pool, or from the second of the new one. */
    method Renew(u: Update, useCoinbaseValue: bool)
      requires Good() && Outdated(u) && u.generated
      modifies this`notifyMap, this`closed, this`tip, this`accepted, this`pending, this`orderly
      modifies this`prevHash, this`template, this`lastGenerated, this`lastTxUpdate
      ensures Good() && Recorded(u, old(tip)) && closed == old(closed) + StaleChans(keyOf, old(tip), u.LastTx())
      ensures NoneOlder(keyOf, closed, lastGenerated)
         <==> old(AllWoken(keyOf, closed, tip, u.LastTx(), u.nowGenerated))
    {
      OlderLeftIff(keyOf, closed, tip, u.LastTx(), u.nowGenerated);
      var ok := UpdateBlockTemplate(u, useCoinbaseValue);
      assert ok;
    }

    /** One event.  The result is that of the request, for the events that are one. */
    method Handle(e: Event) returns (r: Option<Outcome>)
      requires Good()
      modifies this
      ensures Good() && (orderly ==> old(orderly)) && old(closed) <= closed && old(keyOf).Keys <= keyOf.Keys
      ensures Chain() == AfterEvent(old(Chain()), e)
      ensures if IsRequest(e) then Requested(e, r) else Noticed(e) && SameTemplate() && keyOf == old(keyOf)
    {
      r := None;
      if IsRequest(e) {
        r := Request(e);
      } else {
        Notice(e);
      }
    }

    /** What an event that is no request does to the waiters. */
    twostate predicate Noticed(e: Event)
      requires !IsRequest(e)
      reads this
    {
      match e
      case ChainMoved(_) => closed == old(closed)
      case BlockNotified(b) => Woken(b)
      case MempoolNotified(now, lastUpdated) =>
        closed == if prevHash.Some? && !lastGenerated.IsZero() && Long(now, lastGenerated)
                  then old(closed) + StaleChans(keyOf, prevHash.value, lastUpdated) else old(closed)
    }

    method Notice(e: Event)
      requires Good() && !IsRequest(e)
      modifies this`notifyMap, this`closed, this`tip, this`accepted, this`pending, this`orderly
      ensures Good() && (orderly ==> old(orderly)) && old(closed) <= closed
      ensures Chain() == AfterEvent(old(Chain()), e) && Noticed(e)
    {
      match e
      case ChainMoved(m) => MoveOnce(m);
      case BlockNotified(b) => Notified(b);
      case MempoolNotified(now, lastUpdated) => NotifyMempoolTx(now, lastUpdated);
    }

    /** What a request does to the template and the waiters. */
    twostate predicate Requested(e: Event, new r: Option<Outcome>)
      requires IsRequest(e)
      reads this
    {
      && Updated(e.update)
      && match e
         case LongPolled(_, id, _) =>
           && r.Some? && (r.value.Wait? ==> id.Some? && r.value.c !in closed)
           && keyOf == (if r.value.Wait? then old(keyOf)[r.value.c := id.value] else old(keyOf))
           && (id.Some? && !r.value.Failed? ==>
                 (r.value.Wait? <==> template == Some(id.value.hash) && lastGenerated.Seconds() == id.value.generated))
         case LongPollWoken(_, key, _) =>
           && keyOf == old(keyOf) && r.Some?
           && (!r.value.Failed? ==> r.value == Now(Some(template == Some(key.hash))))
         case _ => keyOf == old(keyOf)
    }

    method Request(e: Event) returns (r: Option<Outcome>)
      requires Good() && IsRequest(e)
      modifies this
      ensures Good() && (orderly ==> old(orderly)) && old(closed) <= closed && old(keyOf).Keys <= keyOf.Keys
      ensures Chain() == Steps(old(Chain()), MovesOf(e)) && Requested(e, r)
    {
      match e
      case TemplateAsked(u, useCoinbaseValue) =>
        var _ := UpdateBlockTemplate(u, useCoinbaseValue);
        r := None;
      case LongPolled(u, id, useCoinbaseValue) =>
        var o := HandleLongPoll(u, id, useCoinbaseValue);
        r := Some(o);
      case LongPollWoken(u, key, useCoinbaseValue) =>
        var o := FinishLongPoll(u, key, useCoinbaseValue);
        r := Some(o);
    }

    /** The template is as before. */
    twostate predicate SameTemplate()
      reads this
    {
      && template == old(template) && prevHash == old(prevHash)
      && lastGenerated == old(lastGenerated) && lastTxUpdate == old(lastTxUpdate)
    }

    method MoveOnce(m: ChainMove)
      requires Good()
      modifies this`tip, this`accepted, this`pending, this`orderly
      ensures Good() && (orderly ==> old(orderly)) && Chain() == Steps(old(Chain()), [m])
    {
      assert [m][..0] == [];
      Move(m);
    }

    /** A pending notification wakes everybody who waits on another block or on a template from
        before the last change of the memory pool, and nobody else. */
    twostate predicate Woken(b: Hash)
      reads this
    {
      if b in old(pending) then
        forall c :: c in keyOf ==>
          (c in closed <==>
            || c in old(closed) || keyOf[c].hash != b
            || (!lastTxUpdate.IsZero() && keyOf[c].generated.seconds < lastTxUpdate.nanos / 1_000_000_000))
      else closed == old(closed)
    }

    /** A notification runs if it was started. */
    method Notified(b: Hash)
      requires Good()
      modifies this`notifyMap, this`closed, this`pending
      ensures Good() && Chain() == old(Chain()).(pending := old(pending) - multiset{b})
      ensures Woken(b) && old(closed) <= closed
    {
      if b in pending {
        NotifyBlockConnected(b);
      }
    }

    /** Over any run in which every new tip is a newly accepted block, once all notifications
        have run no open waiter is on a block other than the tip.  The chain and the pending
        notifications are those of the events, so that from a quiet state this is so whenever
        every block is new and is followed by its notification. */
    method Run(events: seq<Event>)
      requires Good()
      modifies this
      ensures Good() && old(closed) <= closed && old(keyOf).Keys <= keyOf.Keys
      ensures Chain() == AfterEvents(old(Chain()), events, |events|)
      ensures orderly && pending == multiset{} ==> AllOnTip()
      ensures
        && old(orderly) && old(pending) == multiset{} && NewThroughout(events, |events|, old(accepted))
        && (forall b :: !Unnotified(events, |events|, b)) ==>
          orderly && pending == multiset{} && AllOnTip()
    {
      for i := 0 to |events|
        invariant Good() && old(closed) <= closed && old(keyOf).Keys <= keyOf.Keys
        invariant Chain() == AfterEvents(old(Chain()), events, i)
      {
        var _ := Handle(events[i]);
      }
      ghost var start := old(Chain());
      if start.orderly && start.pending == multiset{} && NewThroughout(events, |events|, start.accepted) {
        StaysOrderly(start, events, |events|);
        if forall b :: !Unnotified(events, |events|, b) {
          forall b ensures pending[b] == 0 {
            PendingIff(start, events, |events|, b);
          }
          assert pending == multiset{};
        }
      }
      forall c | orderly && pending == multiset{} && c in keyOf && c !in closed
        ensures keyOf[c].hash == tip
      {
        QuietMeansOnTip(keyOf, closed, tip, accepted, pending, c);
      }
    }
  }

  /** invalidateblock moves the tip without a notification, so a waiter on the block it left
      stays open although nothing is left to run. */
  method UnwokenWaiter(genesis: Hash, block: Hash, t: Time, zero: Time) returns (state: WorkState, c: Chan)
    requires genesis != block && zero.IsZero()
    ensures state.Valid() && state.pending == multiset{}
    ensures c in state.keyOf && c !in state.closed && state.keyOf[c].hash != state.tip
  {
    state := new WorkState(genesis, zero);
    state.Move(Accept(block, true));
    state.NotifyBlockConnected(block);
    assert state.pending == multiset{};
    var u := Update(t, t, t, t, [], true, [], true);
    var r := state.HandleLongPoll(u, Some(Key(block, t.Seconds())), true);
    c := r.c;
    state.Move(Reselect(genesis));
  }

  function Seconds(tenths: int): Time {
    Time(tenths * NANOS / 10)
  }

  /** A template is made at 100.2 seconds and waited on, the memory pool changes at 100.7 seconds,
      and a new template is made at 161 seconds: the waiter is not woken. */
  method OlderWaiterStays(genesis: Hash, zero: Time) returns (state: WorkState, c: Chan)
    requires zero.IsZero()
    ensures state.Good() && state.orderly && state.tip == genesis && state.template == Some(genesis)
    ensures c in state.keyOf && c !in state.closed && state.keyOf[c] == Key(genesis, Unix(100))
    ensures state.lastGenerated == Seconds(1610) && state.lastTxUpdate == Seconds(1007)
  {
    state := new WorkState(genesis, zero);
    var first := Update(Seconds(1000), Seconds(1000), Seconds(1002), Seconds(1002), [], true, [], true);
    var r := state.HandleLongPoll(first, Some(Key(genesis, Unix(100))), true);
    c := r.c;
    var second := Update(Seconds(1007), Seconds(1007), Seconds(1610), Seconds(1610), [], true, [], true);
    var ok := state.UpdateBlockTemplate(second, true);
  }
}
