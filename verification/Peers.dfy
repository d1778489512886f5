/** The peer state of the server: three maps of peers, a counter per outbound group, and
    the banned hosts. */
module Peers {
  import opened Wire

  datatype PeerId = PeerId(number: nat)

  /** A connected peer as the peer handler sees it.  `host` is None when its address cannot
      be split; `versionKnown` holds from the version handshake on. */
  datatype Peer = Peer(
    id: PeerId, inbound: bool, persistent: bool, group: string, host: Option<string>, versionKnown: bool)

  type Table = map<PeerId, Peer>

  /** Inbound peers are never persistent; only outbound connection requests are. */
  predicate WellFormed(p: Peer) {
    !(p.inbound && p.persistent)
  }

  function Count(groups: map<string, int>, g: string): int {
    if g in groups then groups[g] else 0
  }

  function Without(peers: Table, id: PeerId): (rest: Table)
    ensures id !in peers ==> rest == peers
    ensures id in peers ==> |rest| == |peers| - 1
  {
    var rest := peers - {id};
    assert rest.Keys == peers.Keys - {id};
    rest
  }

  function With(peers: Table, p: Peer): (more: Table)
    ensures p.id !in peers ==> |more| == |peers| + 1
  {
    peers[p.id := p]
  }

  /** The peers of a map that belong to a group. */
  ghost function Members(peers: Table, g: string): set<PeerId> {
    set id | id in peers && peers[id].group == g
  }

  lemma MembersAdd(peers: Table, p: Peer, g: string)
    requires p.id !in peers
    ensures |Members(With(peers, p), g)| == |Members(peers, g)| + (if p.group == g then 1 else 0)
  {
    assert Members(With(peers, p), g) == Members(peers, g) + (if p.group == g then {p.id} else {});
  }

  lemma MembersRemove(peers: Table, id: PeerId, g: string)
    requires id in peers
    ensures |Members(Without(peers, id), g)| == |Members(peers, g)| - (if peers[id].group == g then 1 else 0)
  {
    assert Members(Without(peers, id), g) == Members(peers, g) - (if peers[id].group == g then {id} else {});
  }

  /** The counters are right: each counts the outbound and persistent peers of its group. */
  ghost predicate Counted(groups: map<string, int>, outbound: Table, persistent: Table) {
    forall g {:trigger GroupSize(outbound, persistent, g)} :: Count(groups, g) == GroupSize(outbound, persistent, g)
  }

  ghost function GroupSize(outbound: Table, persistent: Table, g: string): nat {
    |Members(outbound, g)| + |Members(persistent, g)|
  }

  /** Every peer sits under its own id and is of the given kind. */
  ghost predicate Holds(peers: Table, inbound: bool, persistent: bool) {
    forall id :: id in peers ==>
      && peers[id].id == id && peers[id].inbound == inbound && peers[id].persistent == persistent
      && peers[id].versionKnown
  }

  ghost predicate TablesOk(inbound: Table, outbound: Table, persistent: Table) {
    && Holds(inbound, true, false) && Holds(outbound, false, false) && Holds(persistent, false, true)
    && (forall id :: id in inbound ==> id !in outbound && id !in persistent)
    && (forall id :: id in outbound ==> id !in persistent)
  }

  lemma TablesWith(inbound: Table, outbound: Table, persistent: Table, p: Peer)
    requires TablesOk(inbound, outbound, persistent) && p.versionKnown
    requires p.id !in inbound && p.id !in outbound && p.id !in persistent
    ensures p.inbound && !p.persistent ==> TablesOk(With(inbound, p), outbound, persistent)
    ensures !p.inbound && !p.persistent ==> TablesOk(inbound, With(outbound, p), persistent)
    ensures !p.inbound && p.persistent ==> TablesOk(inbound, outbound, With(persistent, p))
  {
  }

  lemma TablesWithout(inbound: Table, outbound: Table, persistent: Table, id: PeerId)
    requires TablesOk(inbound, outbound, persistent)
    ensures TablesOk(Without(inbound, id), outbound, persistent)
    ensures TablesOk(inbound, Without(outbound, id), persistent)
    ensures TablesOk(inbound, outbound, Without(persistent, id))
  {
  }

  /** A listed peer is in the map of its kind and in no other. */
  lemma OnlyInItsTable(inbound: Table, outbound: Table, persistent: Table, p: Peer)
    requires TablesOk(inbound, outbound, persistent) && WellFormed(p)
    requires p.id in inbound ==> inbound[p.id] == p
    requires p.id in outbound ==> outbound[p.id] == p
    requires p.id in persistent ==> persistent[p.id] == p
    ensures !p.inbound ==> Without(inbound, p.id) == inbound
    ensures p.inbound || p.persistent ==> Without(outbound, p.id) == outbound
    ensures !p.persistent ==> Without(persistent, p.id) == persistent
  {
  }

  lemma CountOneMore(groups: map<string, int>, outbound: Table, persistent: Table, p: Peer)
    requires Counted(groups, outbound, persistent) && p.id !in outbound && p.id !in persistent
    ensures Counted(groups[p.group := Count(groups, p.group) + 1], With(outbound, p), persistent)
    ensures Counted(groups[p.group := Count(groups, p.group) + 1], outbound, With(persistent, p))
  {
    forall g
      ensures GroupSize(With(outbound, p), persistent, g)
           == GroupSize(outbound, persistent, g) + if p.group == g then 1 else 0
      ensures GroupSize(outbound, With(persistent, p), g)
           == GroupSize(outbound, persistent, g) + if p.group == g then 1 else 0
    {
      MembersAdd(outbound, p, g);
      MembersAdd(persistent, p, g);
    }
  }

  lemma CountOneLessOutbound(groups: map<string, int>, outbound: Table, persistent: Table, id: PeerId)
    requires Counted(groups, outbound, persistent) && id in outbound
    ensures var g := outbound[id].group; Counted(groups[g := Count(groups, g) - 1], Without(outbound, id), persistent)
  {
    forall g
      ensures GroupSize(Without(outbound, id), persistent, g)
           == GroupSize(outbound, persistent, g) - if outbound[id].group == g then 1 else 0
    {
      MembersRemove(outbound, id, g);
    }
  }

  lemma CountOneLessPersistent(groups: map<string, int>, outbound: Table, persistent: Table, id: PeerId)
    requires Counted(groups, outbound, persistent) && id in persistent
    ensures var g := persistent[id].group; Counted(groups[g := Count(groups, g) - 1], outbound, Without(persistent, id))
  {
    forall g
      ensures GroupSize(outbound, Without(persistent, id), g)
           == GroupSize(outbound, persistent, g) - if persistent[id].group == g then 1 else 0
    {
      MembersRemove(persistent, id, g);
    }
  }

  /** A ban that has not ended is still in force in the map, whatever was overwritten or
      deleted since; and every entry of the map comes from a ban. */
  ghost predicate BansKept(bans: set<(string, int)>, banned: map<string, int>, clock: int, duration: int) {
    && (forall h, e :: (h, e) in bans ==> e <= clock + duration)
    && (forall h, e :: (h, e) in bans ==> e <= clock || (h in banned && e <= banned[h]))
    && (forall h :: h in banned ==> (h, banned[h]) in bans)
  }

  lemma BanAdded(bans: set<(string, int)>, banned: map<string, int>, clock: int, duration: int, host: string, now: int)
    requires BansKept(bans, banned, clock, duration) && clock <= now
    ensures BansKept(bans + {(host, now + duration)}, banned[host := now + duration], now, duration)
  {
  }

  /** Deleting an ended entry is safe, and tells that every ban of the host has ended. */
  lemma BanExpired(
    bans: set<(string, int)>, banned: map<string, int>, clock: int, duration: int, host: string, now: int)
    requires BansKept(bans, banned, clock, duration) && clock <= now && (host in banned ==> banned[host] <= now)
    ensures BansKept(bans, banned - {host}, now, duration)
    ensures forall e :: (host, e) in bans ==> e <= now
  {
  }

  ghost predicate Matches(peers: Table, cmp: Peer -> bool) {
    exists id :: id in peers && cmp(peers[id])
  }

  /** Only matching peers were removed, and nothing was added or changed. */
  ghost predicate KeptOthers(before: Table, after: Table, cmp: Peer -> bool) {
    && (forall id :: id in after ==> id in before && after[id] == before[id])
    && (forall id :: id in before && !cmp(before[id]) ==> id in after)
  }

  /** The three maps of peers. */
  datatype Tables = Tables(inbound: Table, outbound: Table, persistent: Table) {
    function Total(): nat { |inbound| + |outbound| + |persistent| }
  }

  /** A new peer in the map of its kind. */
  function AddTo(a: Tables, sp: Peer): Tables {
    if sp.inbound then a.(inbound := a.inbound[sp.id := sp])
    else if sp.persistent then a.(persistent := a.persistent[sp.id := sp])
    else a.(outbound := a.outbound[sp.id := sp])
  }

  /** One matching peer is gone, if there was any. */
  ghost predicate OneRemoved(before: Table, after: Table, cmp: Peer -> bool) {
    if Matches(before, cmp) then exists id :: id in before && cmp(before[id]) && after == before - {id}
    else after == before
  }

  /** All matching peers are gone, and only those. */
  ghost predicate AllRemoved(before: Table, after: Table, cmp: Peer -> bool) {
    after == map id | id in before && !cmp(before[id]) :: before[id]
  }

  /** What an event does to the maps, given the bans before it. */
  ghost predicate TableStep(
    a: Tables, e: Event, admitted: bool, bans: set<(string, int)>, maxPeers: nat, b: Tables)
  {
    match e
    case Add(sp, connected, undesired, shutdown, now) =>
      && (admitted <==>
            && connected && !undesired && !shutdown && sp.host.Some?
            && Ended(bans, sp.host.value, now) && a.Total() < maxPeers)
      && b == if admitted then AddTo(a, sp) else a
    case Done(sp) => !admitted && b == Tables(a.inbound - {sp.id}, a.outbound - {sp.id}, a.persistent - {sp.id})
    case Ban(_, _) => !admitted && b == a
    case RemoveNode(cmp) =>
      !admitted && b.inbound == a.inbound && b.outbound == a.outbound && OneRemoved(a.persistent, b.persistent, cmp)
    case DisconnectNode(cmp) =>
      && !admitted && b.persistent == a.persistent && OneRemoved(a.inbound, b.inbound, cmp)
      && if Matches(a.inbound, cmp) then b.outbound == a.outbound else AllRemoved(a.outbound, b.outbound, cmp)
  }

  lemma AllRemovedIff(before: Table, after: Table, cmp: Peer -> bool)
    requires KeptOthers(before, after, cmp) && !Matches(after, cmp)
    ensures AllRemoved(before, after, cmp)
  {
    var rest := map id | id in before && !cmp(before[id]) :: before[id];
    forall id | id in after
      ensures id in rest && rest[id] == after[id]
    {
      assert !cmp(after[id]);
    }
    assert after.Keys == rest.Keys;
  }

  class PeerState {
    var inboundPeers: Table
    var outboundPeers: Table
    var persistentPeers: Table
    var banned: map<string, int>
    var outboundGroups: map<string, int>

    const maxPeers: nat
    const banDuration: int

    // The last time read from the clock and every ban so far, as (host, end).
    ghost var clock: int
    ghost var bans: set<(string, int)>

    ghost predicate Valid()
      reads this
    {
      && TablesOk(inboundPeers, outboundPeers, persistentPeers)
      && Total() <= maxPeers
      && Counted(outboundGroups, outboundPeers, persistentPeers)
      && BansKept(bans, banned, clock, banDuration)
    }

    function Total(): nat
      reads this
    {
      |inboundPeers| + |outboundPeers| + |persistentPeers|
    }

    ghost function Lists(): Tables
      reads this
    {
      Tables(inboundPeers, outboundPeers, persistentPeers)
    }

    ghost predicate Listed(p: Peer)
      reads this
    {
      p.id in inboundPeers || p.id in outboundPeers || p.id in persistentPeers
    }

    /** Ids identify peers. */
    ghost predicate Identifies(p: Peer)
      reads this
    {
      && (p.id in inboundPeers ==> inboundPeers[p.id] == p)
      && (p.id in outboundPeers ==> outboundPeers[p.id] == p)
      && (p.id in persistentPeers ==> persistentPeers[p.id] == p)
    }

    constructor (maxPeers: nat, banDuration: int, ghost now: int)
      ensures Valid() && Total() == 0 && bans == {} && clock == now
      ensures this.maxPeers == maxPeers && this.banDuration == banDuration
    {
      inboundPeers, outboundPeers, persistentPeers := map[], map[], map[];
      banned, outboundGroups := map[], map[];
      this.maxPeers, this.banDuration := maxPeers, banDuration;
      clock, bans := now, {};
    }

    /** Adds a peer.  It is admitted exactly when it is connected and wanted, the server is
        up, its host is known and every ban of that host, at any time in the past, has ended,
        and there is room. */
    method HandleAddPeer(sp: Peer, connected: bool, undesired: bool, shutdown: bool, now: int) returns (added: bool)
      requires Valid() && WellFormed(sp) && sp.versionKnown && !Listed(sp) && clock <= now
      modifies this
      ensures Valid() && clock == now && bans == old(bans)
      ensures added <==>
        && connected && !undesired && !shutdown && sp.host.Some?
        && (forall end :: (sp.host.value, end) in bans ==> end <= now)
        && old(Total()) < maxPeers
      ensures added <==> Listed(sp)
      ensures inboundPeers == if added && sp.inbound then With(old(inboundPeers), sp) else old(inboundPeers)
      ensures outboundPeers ==
        if added && !sp.inbound && !sp.persistent then With(old(outboundPeers), sp) else old(outboundPeers)
      ensures persistentPeers ==
        if added && sp.persistent then With(old(persistentPeers), sp) else old(persistentPeers)
    {
      clock := now;
      if !connected || undesired || shutdown || sp.host.None? {
        return false;
      }
      var host := sp.host.value;
      if host in banned && now < banned[host] {
        return false;
      }
      BanExpired(bans, banned, old(clock), banDuration, host, now);
      if host in banned {
        banned := banned - {host};
      } else {
        assert banned - {host} == banned;
      }
      if Total() >= maxPeers {
        return false;
      }
      Admit(sp);
      added := true;
    }

    /** Lists an admitted peer and counts it in its group when it is outbound. */
    method Admit(sp: Peer)
      requires Valid() && WellFormed(sp) && sp.versionKnown && !Listed(sp) && Total() < maxPeers
      modifies this`inboundPeers, this`outboundPeers, this`persistentPeers, this`outboundGroups
      ensures Valid() && Listed(sp)
      ensures inboundPeers == if sp.inbound then With(old(inboundPeers), sp) else old(inboundPeers)
      ensures outboundPeers ==
        if !sp.inbound && !sp.persistent then With(old(outboundPeers), sp) else old(outboundPeers)
      ensures persistentPeers == if sp.persistent then With(old(persistentPeers), sp) else old(persistentPeers)
    {
      if sp.inbound {
        AdmitInbound(sp);
      } else {
        AdmitOutbound(sp);
      }
    }

    method AdmitInbound(sp: Peer)
      requires Valid() && sp.inbound && !sp.persistent && sp.versionKnown && !Listed(sp) && Total() < maxPeers
      modifies this`inboundPeers
      ensures Valid() && inboundPeers == With(old(inboundPeers), sp)
    {
      TablesWith(inboundPeers, outboundPeers, persistentPeers, sp);
      inboundPeers := With(inboundPeers, sp);
    }

    method AdmitOutbound(sp: Peer)
      requires Valid() && !sp.inbound && sp.versionKnown && !Listed(sp) && Total() < maxPeers
      modifies this`outboundPeers, this`persistentPeers, this`outboundGroups
      ensures Valid()
      ensures outboundPeers == if !sp.persistent then With(old(outboundPeers), sp) else old(outboundPeers)
      ensures persistentPeers == if sp.persistent then With(old(persistentPeers), sp) else old(persistentPeers)
    {
      TablesWith(inboundPeers, outboundPeers, persistentPeers, sp);
      CountOneMore(outboundGroups, outboundPeers, persistentPeers, sp);
      outboundGroups := outboundGroups[sp.group := Count(outboundGroups, sp.group) + 1];
      if sp.persistent {
        persistentPeers := With(persistentPeers, sp);
      } else {
        outboundPeers := With(outboundPeers, sp);
      }
    }

    /** A peer is done.  It may have been removed before, or never have been added. */
    method HandleDonePeer(sp: Peer)
      requires Valid() && WellFormed(sp) && Identifies(sp)
      modifies this
      ensures Valid() && clock == old(clock) && bans == old(bans) && !Listed(sp)
      ensures inboundPeers == Without(old(inboundPeers), sp.id)
      ensures outboundPeers == Without(old(outboundPeers), sp.id)
      ensures persistentPeers == Without(old(persistentPeers), sp.id)
    {
      OnlyInItsTable(inboundPeers, outboundPeers, persistentPeers, sp);
      DropFromItsTable(sp);
    }

    /** Removes a peer from the map of its kind, if it is there. */
    method DropFromItsTable(sp: Peer)
      requires Valid()
      modifies this`inboundPeers, this`outboundPeers, this`persistentPeers, this`outboundGroups
      ensures Valid()
      ensures persistentPeers == if sp.persistent then Without(old(persistentPeers), sp.id) else old(persistentPeers)
      ensures inboundPeers ==
        if !sp.persistent && sp.inbound then Without(old(inboundPeers), sp.id) else old(inboundPeers)
      ensures outboundPeers ==
        if !sp.persistent && !sp.inbound then Without(old(outboundPeers), sp.id) else old(outboundPeers)
    {
      if sp.persistent {
        if sp.id in persistentPeers {
          DropPersistent(sp.id);
        }
      } else if sp.inbound {
        if sp.id in inboundPeers {
          DropInbound(sp.id);
        }
      } else {
        if sp.id in outboundPeers {
          DropOutbound(sp.id);
        }
      }
    }

    method DropInbound(id: PeerId)
      requires Valid() && id in inboundPeers
      modifies this`inboundPeers
      ensures Valid() && inboundPeers == Without(old(inboundPeers), id)
    {
      TablesWithout(inboundPeers, outboundPeers, persistentPeers, id);
      inboundPeers := Without(inboundPeers, id);
    }

    /** Drops a listed persistent peer; its version is known, so it is uncounted too. */
    method DropPersistent(id: PeerId)
      requires Valid() && id in persistentPeers
      modifies this`persistentPeers, this`outboundGroups
      ensures Valid() && persistentPeers == Without(old(persistentPeers), id)
    {
      TablesWithout(inboundPeers, outboundPeers, persistentPeers, id);
      CountOneLessPersistent(outboundGroups, outboundPeers, persistentPeers, id);
      var sp := persistentPeers[id];
      if !sp.inbound && sp.versionKnown {
        outboundGroups := outboundGroups[sp.group := Count(outboundGroups, sp.group) - 1];
      }
      persistentPeers := Without(persistentPeers, id);
    }

    method DropOutbound(id: PeerId)
      requires Valid() && id in outboundPeers
      modifies this`outboundPeers, this`outboundGroups
      ensures Valid() && outboundPeers == Without(old(outboundPeers), id)
    {
      TablesWithout(inboundPeers, outboundPeers, persistentPeers, id);
      CountOneLessOutbound(outboundGroups, outboundPeers, persistentPeers, id);
      var sp := outboundPeers[id];
      if !sp.inbound && sp.versionKnown {
        outboundGroups := outboundGroups[sp.group := Count(outboundGroups, sp.group) - 1];
      }
      outboundPeers := Without(outboundPeers, id);
    }

    method HandleBanPeer(sp: Peer, now: int)
      requires Valid() && clock <= now
      modifies this`banned, this`clock, this`bans
      ensures Valid() && clock == now
      ensures bans == old(bans) + (if sp.host.Some? then {(sp.host.value, now + banDuration)} else {})
    {
      clock := now;
      if sp.host.None? {
        return;
      }
      BanAdded(bans, banned, old(clock), banDuration, sp.host.value, now);
      banned := banned[sp.host.value := now + banDuration];
      bans := bans + {(sp.host.value, now + banDuration)};
    }

    /** Removes one matching persistent peer. */
    method HandleRemoveNode(cmp: Peer -> bool) returns (found: bool)
      requires Valid()
      modifies this
      ensures Valid() && clock == old(clock) && bans == old(bans)
      ensures inboundPeers == old(inboundPeers) && outboundPeers == old(outboundPeers)
      ensures found <==> exists id :: id in old(persistentPeers) && cmp(old(persistentPeers)[id])
      ensures !found ==> persistentPeers == old(persistentPeers)
      ensures found ==> exists id ::
        && id in old(persistentPeers) && cmp(old(persistentPeers)[id])
        && persistentPeers == Without(old(persistentPeers), id)
    {
      var target := FindPeer(persistentPeers, cmp);
      found := target.Some?;
      if found {
        DropPersistent(target.value);
      }
    }

    /** Some peer that matches, in whatever order the map is walked. */
    static method FindPeer(peers: Table, cmp: Peer -> bool) returns (target: Option<PeerId>)
      ensures target.Some? ==> target.value in peers && cmp(peers[target.value])
      ensures target.None? ==> forall id :: id in peers ==> !cmp(peers[id])
    {
      var todo := peers.Keys;
      while todo != {}
        invariant todo <= peers.Keys
        invariant forall id :: id in peers && id !in todo ==> !cmp(peers[id])
        decreases todo
      {
        var id :| id in todo;
        todo := todo - {id};
        if cmp(peers[id]) {
          return Some(id);
        }
      }
      target := None;
    }

    /** Removes one matching outbound peer, keeping its group's counter right. */
    method DisconnectOutbound(cmp: Peer -> bool) returns (found: bool)
      requires Valid()
      modifies this`outboundPeers, this`outboundGroups
      ensures Valid()
      ensures found <==> Matches(old(outboundPeers), cmp)
      ensures !found ==> outboundPeers == old(outboundPeers)
      ensures found ==> |outboundPeers| < |old(outboundPeers)|
      ensures KeptOthers(old(outboundPeers), outboundPeers, cmp)
    {
      var target := FindPeer(outboundPeers, cmp);
      found := target.Some?;
      if found {
        DropOutbound(target.value);
      }
    }

    /** Disconnects one matching inbound peer, or else every matching outbound peer. */
    method HandleDisconnectNode(cmp: Peer -> bool) returns (found: bool)
      requires Valid()
      modifies this
      ensures Valid() && clock == old(clock) && bans == old(bans) && persistentPeers == old(persistentPeers)
      ensures Matches(old(inboundPeers), cmp) ==>
        && found && outboundPeers == old(outboundPeers)
        && exists id ::
             && id in old(inboundPeers) && cmp(old(inboundPeers)[id])
             && inboundPeers == Without(old(inboundPeers), id)
      ensures !Matches(old(inboundPeers), cmp) ==>
        && inboundPeers == old(inboundPeers)
        && (found <==> Matches(old(outboundPeers), cmp))
        && !Matches(outboundPeers, cmp) && KeptOthers(old(outboundPeers), outboundPeers, cmp)
    {
      var target := FindPeer(inboundPeers, cmp);
      if target.Some? {
        DropInbound(target.value);
        return true;
      }
      found := DisconnectOutbound(cmp);
      if found {
        var more := true;
        while more
          invariant Valid() && inboundPeers == old(inboundPeers) && persistentPeers == old(persistentPeers)
          invariant clock == old(clock) && bans == old(bans) && banned == old(banned)
          invariant KeptOthers(old(outboundPeers), outboundPeers, cmp)
          invariant !more ==> !Matches(outboundPeers, cmp)
          decreases |outboundPeers| + if more then 1 else 0
        {
          more := DisconnectOutbound(cmp);
        }
      }
    }

    /** Every listed peer is one of those added so far. */
    ghost predicate ListsOnly(added: set<Peer>)
      reads this
    {
      AllIn(inboundPeers, added) && AllIn(outboundPeers, added) && AllIn(persistentPeers, added)
    }

    method HandleAdd(sp: Peer, connected: bool, undesired: bool, shutdown: bool, now: int, ghost added: set<Peer>)
      returns (admitted: bool)
      requires Valid() && ListsOnly(added) && clock <= now
      requires Sensible(Add(sp, connected, undesired, shutdown, now), added)
      modifies this
      ensures Valid() && ListsOnly(added + {sp}) && clock == now && bans == old(bans)
      ensures TableStep(old(Lists()), Add(sp, connected, undesired, shutdown, now), admitted, bans, maxPeers, Lists())
    {
      NotListed(inboundPeers, outboundPeers, persistentPeers, sp, added);
      AllInWith(inboundPeers, sp, added);
      AllInWith(outboundPeers, sp, added);
      AllInWith(persistentPeers, sp, added);
      admitted := HandleAddPeer(sp, connected, undesired, shutdown, now);
    }

    method HandleDone(sp: Peer, ghost added: set<Peer>)
      requires Valid() && ListsOnly(added) && Sensible(Done(sp), added)
      modifies this
      ensures Valid() && ListsOnly(added) && clock == old(clock) && bans == old(bans)
      ensures TableStep(old(Lists()), Done(sp), false, bans, maxPeers, Lists())
    {
      AllInWithout(inboundPeers, sp.id, added);
      AllInWithout(outboundPeers, sp.id, added);
      AllInWithout(persistentPeers, sp.id, added);
      HandleDonePeer(sp);
    }

    method HandleRemove(cmp: Peer -> bool, ghost added: set<Peer>)
      requires Valid() && ListsOnly(added)
      modifies this
      ensures Valid() && ListsOnly(added) && clock == old(clock) && bans == old(bans)
      ensures TableStep(old(Lists()), RemoveNode(cmp), false, bans, maxPeers, Lists())
    {
      forall id
        ensures AllIn(Without(persistentPeers, id), added)
      {
        AllInWithout(persistentPeers, id, added);
      }
      var _ := HandleRemoveNode(cmp);
    }

    method HandleDisconnect(cmp: Peer -> bool, ghost added: set<Peer>)
      requires Valid() && ListsOnly(added)
      modifies this
      ensures Valid() && ListsOnly(added) && clock == old(clock) && bans == old(bans)
      ensures TableStep(old(Lists()), DisconnectNode(cmp), false, bans, maxPeers, Lists())
    {
      forall id
        ensures AllIn(Without(inboundPeers, id), added)
      {
        AllInWithout(inboundPeers, id, added);
      }
      var _ := HandleDisconnectNode(cmp);
      if !Matches(old(inboundPeers), cmp) {
        AllRemovedIff(old(outboundPeers), outboundPeers, cmp);
      }
    }

    method Handle(e: Event, ghost added: set<Peer>) returns (admitted: bool)
      requires Valid() && ListsOnly(added) && Sensible(e, added)
      requires Timed(e) ==> clock <= e.now
      modifies this
      ensures Valid() && ListsOnly(if e.Add? then added + {e.sp} else added)
      ensures clock == (if Timed(e) then e.now else old(clock)) && bans == old(bans) + BansOf(e, banDuration)
      ensures TableStep(old(Lists()), e, admitted, old(bans), maxPeers, Lists())
    {
      if Timed(e) {
        admitted := HandleTimed(e, added);
      } else {
        HandleUntimed(e, added);
        admitted := false;
      }
    }

    method HandleTimed(e: Event, ghost added: set<Peer>) returns (admitted: bool)
      requires Valid() && ListsOnly(added) && Sensible(e, added) && Timed(e) && clock <= e.now
      modifies this
      ensures Valid() && ListsOnly(if e.Add? then added + {e.sp} else added)
      ensures clock == e.now && bans == old(bans) + BansOf(e, banDuration)
      ensures TableStep(old(Lists()), e, admitted, old(bans), maxPeers, Lists())
    {
      match e
      case Add(sp, connected, undesired, shutdown, now) =>
        admitted := HandleAdd(sp, connected, undesired, shutdown, now, added);
      case Ban(sp, now) =>
        HandleBanPeer(sp, now);
        admitted := false;
    }

    method HandleUntimed(e: Event, ghost added: set<Peer>)
      requires Valid() && ListsOnly(added) && Sensible(e, added) && !Timed(e)
      modifies this
      ensures Valid() && ListsOnly(added) && clock == old(clock) && bans == old(bans)
      ensures TableStep(old(Lists()), e, false, bans, maxPeers, Lists())
    {
      match e
      case Done(sp) => HandleDone(sp, added);
      case RemoveNode(cmp) => HandleRemove(cmp, added);
      case DisconnectNode(cmp) => HandleDisconnect(cmp, added);
    }

    /** Any run in which the clock does not go back, each peer is added at most once, and an id
        always means the same peer.  Every event has its effect on the maps, and no admission
        happens before the end of an earlier ban of the same host, anywhere in the run. */
    method Run(events: seq<Event>) returns (admitted: seq<bool>, ghost trace: seq<Tables>)
      requires Valid() && ListsOnly({}) && Orderly(events, clock)
      modifies this
      ensures Valid() && |admitted| == |events| && BansRespected(events, admitted, banDuration)
      ensures IsRun(events, admitted, old(bans), banDuration, maxPeers, trace)
      ensures trace[0] == old(Lists()) && trace[|events|] == Lists()
    {
      admitted, trace := [], [Lists()];
      assert BansBy(events, 0, banDuration) == {};
      for i := 0 to |events|
        invariant |admitted| == i && SoFar(events, admitted, old(bans), old(Lists()), trace)
        invariant NotBefore(events, i, clock)
      {
        AddedSoFar(events, old(clock), i);
        StepTime(events, i, old(clock), clock);
        admitted, trace := HandleNext(events, admitted, old(bans), old(Lists()), trace);
      }
      RunRespectsBans(events, admitted, old(bans), banDuration, maxPeers, trace);
    }

    /** The state is that of the events answered so far. */
    ghost predicate SoFar(
      events: seq<Event>, admitted: seq<bool>, bans0: set<(string, int)>, start: Tables, trace: seq<Tables>)
      reads this
    {
      && IsRun(events, admitted, bans0, banDuration, maxPeers, trace)
      && trace[0] == start && trace[|admitted|] == Lists()
      && Valid() && ListsOnly(AddedBy(events, |admitted|))
      && bans == bans0 + BansBy(events, |admitted|, banDuration)
    }

    /** The next event of a run. */
    method HandleNext(events: seq<Event>, answers: seq<bool>,
                      ghost bans0: set<(string, int)>, ghost start: Tables, ghost before: seq<Tables>)
      returns (admitted: seq<bool>, ghost trace: seq<Tables>)
      requires |answers| < |events| && SoFar(events, answers, bans0, start, before)
      requires Sensible(events[|answers|], AddedBy(events, |answers|))
      requires Timed(events[|answers|]) ==> clock <= events[|answers|].now
      modifies this
      ensures |admitted| == |answers| + 1 && SoFar(events, admitted, bans0, start, trace)
      ensures clock == if Timed(events[|answers|]) then events[|answers|].now else old(clock)
    {
      ghost var i := |answers|;
      var ok := Handle(events[|answers|], AddedBy(events, i));
      RunExtend(events, answers, ok, bans0, banDuration, maxPeers, before, Lists());
      admitted, trace := answers + [ok], before + [Lists()];
      assert BansBy(events, i + 1, banDuration) == BansBy(events, i, banDuration) + BansOf(events[i], banDuration);
    }
  }

  // ----- whole runs -----

  datatype Event =
    | Add(sp: Peer, connected: bool, undesired: bool, shutdown: bool, now: int)
    | Done(sp: Peer)
    | Ban(sp: Peer, now: int)
    | RemoveNode(cmp: Peer -> bool)
    | DisconnectNode(cmp: Peer -> bool)

  /** A peer is added once, after the handshake, and is the one meant when it is done. */
  ghost predicate Sensible(e: Event, added: set<Peer>) {
    && (e.Add? ==> WellFormed(e.sp) && e.sp.versionKnown && forall p :: p in added ==> p.id != e.sp.id)
    && (e.Done? ==> WellFormed(e.sp) && forall p :: p in added ==> SameIfSameId(p, e.sp))
  }

  predicate Timed(e: Event) {
    e.Add? || e.Ban?
  }

  ghost predicate Orderly(events: seq<Event>, clock: int) {
    && (forall k :: 0 <= k < |events| && Timed(events[k]) ==> clock <= events[k].now)
    && (forall j, k :: 0 <= j < k < |events| && Timed(events[j]) && Timed(events[k]) ==> events[j].now <= events[k].now)
    && (forall k :: 0 <= k < |events| && events[k].Add? ==> WellFormed(events[k].sp) && events[k].sp.versionKnown)
    && (forall k :: 0 <= k < |events| && events[k].Done? ==> WellFormed(events[k].sp))
    && (forall j, k :: 0 <= j < k < |events| && events[j].Add? && events[k].Add? ==> events[j].sp.id != events[k].sp.id)
    && (forall j, k :: 0 <= j < k < |events| && events[j].Add? && events[k].Done? ==>
          SameIfSameId(events[j].sp, events[k].sp))
  }

  /** The events from the i-th on do not happen before the clock. */
  ghost predicate NotBefore(events: seq<Event>, i: nat, clock: int)
    requires i <= |events|
  {
    forall k :: i <= k < |events| && Timed(events[k]) ==> clock <= events[k].now
  }

  lemma StepTime(events: seq<Event>, i: nat, clock0: int, clock: int)
    requires i < |events| && Orderly(events, clock0) && NotBefore(events, i, clock)
    ensures Timed(events[i]) ==> clock <= events[i].now
    ensures NotBefore(events, i + 1, if Timed(events[i]) then events[i].now else clock)
  {
  }

  predicate SameIfSameId(p: Peer, q: Peer) {
    p.id == q.id ==> p == q
  }

  ghost predicate AllIn(peers: Table, added: set<Peer>) {
    forall id :: id in peers ==> peers[id] in added
  }

  lemma AllInWith(peers: Table, p: Peer, added: set<Peer>)
    requires AllIn(peers, added)
    ensures AllIn(With(peers, p), added + {p}) && AllIn(peers, added + {p})
  {
  }

  lemma AllInWithout(peers: Table, id: PeerId, added: set<Peer>)
    requires AllIn(peers, added)
    ensures AllIn(Without(peers, id), added)
  {
  }

  lemma NotListed(inbound: Table, outbound: Table, persistent: Table, sp: Peer, added: set<Peer>)
    requires TablesOk(inbound, outbound, persistent)
    requires AllIn(inbound, added) && AllIn(outbound, added) && AllIn(persistent, added)
    requires forall p :: p in added ==> p.id != sp.id
    ensures sp.id !in inbound && sp.id !in outbound && sp.id !in persistent
  {
  }

  ghost function AddedBy(events: seq<Event>, n: nat): set<Peer>
    requires n <= |events|
  {
    if n == 0 then {}
    else if events[n - 1].Add? then AddedBy(events, n - 1) + {events[n - 1].sp}
    else AddedBy(events, n - 1)
  }

  function BansOf(e: Event, duration: int): set<(string, int)> {
    if e.Ban? && e.sp.host.Some? then {(e.sp.host.value, e.now + duration)} else {}
  }

  ghost predicate Ended(bans: set<(string, int)>, host: string, now: int) {
    forall end :: (host, end) in bans ==> end <= now
  }

  /** The bans of the first n events. */
  function BansBy(events: seq<Event>, n: nat, duration: int): set<(string, int)>
    requires n <= |events|
  {
    if n == 0 then {} else BansBy(events, n - 1, duration) + BansOf(events[n - 1], duration)
  }

  /** The maps after each event, up to the last answer. */
  ghost predicate IsRun(
    events: seq<Event>, admitted: seq<bool>, bans: set<(string, int)>, duration: int, maxPeers: nat,
    trace: seq<Tables>)
  {
    && |admitted| <= |events| && |trace| == |admitted| + 1
    && forall k :: 0 <= k < |admitted| ==>
         TableStep(trace[k], events[k], admitted[k], bans + BansBy(events, k, duration), maxPeers, trace[k + 1])
  }

  lemma RunExtend(
    events: seq<Event>, admitted: seq<bool>, ok: bool, bans: set<(string, int)>, duration: int, maxPeers: nat,
    trace: seq<Tables>, after: Tables)
    requires IsRun(events, admitted, bans, duration, maxPeers, trace) && |admitted| < |events|
    requires
      var k := |admitted|;
      TableStep(trace[k], events[k], ok, bans + BansBy(events, k, duration), maxPeers, after)
    ensures IsRun(events, admitted + [ok], bans, duration, maxPeers, trace + [after])
  {
    var a, t := admitted + [ok], trace + [after];
    forall k | 0 <= k < |a|
      ensures TableStep(t[k], events[k], a[k], bans + BansBy(events, k, duration), maxPeers, t[k + 1])
    {
      if k < |admitted| {
        assert t[k] == trace[k] && t[k + 1] == trace[k + 1];
      }
    }
  }

  /** Whenever a peer was admitted, every earlier ban of its host had ended. */
  ghost predicate BansRespected(events: seq<Event>, admitted: seq<bool>, duration: int)
    requires |admitted| <= |events|
  {
    forall j, k :: 0 <= j < k < |admitted| && admitted[k] && events[j].Ban? ==>
      events[k].Add? && (events[j].sp.host == events[k].sp.host ==> events[j].now + duration <= events[k].now)
  }

  lemma {:induction false} AddedBefore(events: seq<Event>, n: nat, p: Peer)
    requires n <= |events| && p in AddedBy(events, n)
    ensures exists j :: 0 <= j < n && events[j].Add? && events[j].sp == p
  {
    if !events[n - 1].Add? || events[n - 1].sp != p {
      AddedBefore(events, n - 1, p);
    }
  }

  lemma AddedSoFar(events: seq<Event>, clock: int, i: nat)
    requires i < |events| && Orderly(events, clock)
    ensures Sensible(events[i], AddedBy(events, i))
  {
    forall p | p in AddedBy(events, i)
      ensures events[i].Add? ==> p.id != events[i].sp.id
      ensures events[i].Done? ==> SameIfSameId(p, events[i].sp)
    {
      AddedBefore(events, i, p);
      var j :| 0 <= j < i && events[j].Add? && events[j].sp == p;
    }
  }

  lemma {:induction false} BanIsKnown(events: seq<Event>, j: nat, n: nat, duration: int)
    requires j < n <= |events|
    ensures BansOf(events[j], duration) <= BansBy(events, n, duration)
  {
    if j < n - 1 {
      BanIsKnown(events, j, n - 1, duration);
    }
  }

  lemma RunRespectsBans(
    events: seq<Event>, admitted: seq<bool>, bans: set<(string, int)>, duration: int, maxPeers: nat,
    trace: seq<Tables>)
    requires IsRun(events, admitted, bans, duration, maxPeers, trace)
    ensures BansRespected(events, admitted, duration)
  {
    forall j, k | 0 <= j < k < |admitted| && admitted[k] && events[j].Ban?
      ensures events[k].Add? && (events[j].sp.host == events[k].sp.host ==> events[j].now + duration <= events[k].now)
    {
      BanIsKnown(events, j, k, duration);
      assert TableStep(trace[k], events[k], admitted[k], bans + BansBy(events, k, duration), maxPeers, trace[k + 1]);
      if events[j].sp.host == events[k].sp.host {
        assert (events[j].sp.host.value, events[j].now + duration) in BansOf(events[j], duration);
      }
    }
  }
}
