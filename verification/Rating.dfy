/** The record kept in the distributed hash table for a file: who provides it, how each
    provider voted, and counters over those votes.  Peers update it by reading some copy,
    changing it and writing it back. */
module Rating {
  import opened Wire

  /** The identity of a node in the hash table. */
  datatype NodeId = NodeId(id: nat)

  const UPVOTE: string := "upvote"
  const DOWNVOTE: string := "downvote"

  /** `rating` is this provider's vote, empty when it has not voted. */
  datatype Provider = Provider(addr: string, isActive: bool, fee: int, rating: string)

  /** `details` stands for the name, type, size, description and creation time. */
  datatype Record = Record(
    hash: string, details: string, rating: int, numRaters: int, upvote: int, downvote: int,
    providers: map<NodeId, Provider>)

  /** What a peer knows locally about a file it publishes. */
  datatype FileInfo = FileInfo(hash: string, details: string, isPublished: bool, fee: int, voteType: string)

  datatype Outcome = Stored(record: Record) | Failed(reason: string)

  predicate IsVote(v: string) {
    v == UPVOTE || v == DOWNVOTE
  }

  // ----- what the counters should say -----

  function Voters(providers: map<NodeId, Provider>, vote: string): set<NodeId> {
    set p | p in providers && providers[p].rating == vote
  }

  function Ups(providers: map<NodeId, Provider>): nat {
    |Voters(providers, UPVOTE)|
  }

  function Downs(providers: map<NodeId, Provider>): nat {
    |Voters(providers, DOWNVOTE)|
  }

  /** Rating and NumRaters are what the provider map says.  Upvote and Downvote only count the
      votes cast after publishing, so they are bounds. */
  predicate Consistent(r: Record) {
    && r.rating == Ups(r.providers) - Downs(r.providers)
    && r.numRaters == Ups(r.providers) + Downs(r.providers)
    && 0 <= r.upvote <= Ups(r.providers)
    && 0 <= r.downvote <= Downs(r.providers)
    && forall p :: p in r.providers ==> r.providers[p].rating == "" || IsVote(r.providers[p].rating)
  }

  /** The record with this provider map and with the counters worked out from the map. */
  function WithProviders(r: Record, providers: map<NodeId, Provider>): Record {
    var ups, downs := Ups(providers), Downs(providers);
    r.(providers := providers, rating := ups - downs, numRaters := ups + downs)
  }

  // ----- specification of the two updates -----

  function Base(read: Option<Record>, info: FileInfo): Record {
    if read.Some? then read.value else Record(info.hash, info.details, 0, 0, 0, 0, map[])
  }

  /** The provider entry after publishing: a known address and an earlier vote stay. */
  function Published(before: Option<Provider>, addr: string, info: FileInfo): Provider {
    var vote := if IsVote(info.voteType) then info.voteType else "";
    if before.None? then Provider(addr, info.isPublished, info.fee, vote)
    else Provider(before.value.addr, info.isPublished, info.fee,
                  if before.value.rating == "" then vote else before.value.rating)
  }

  function Lookup(providers: map<NodeId, Provider>, me: NodeId): Option<Provider> {
    if me in providers then Some(providers[me]) else None
  }

  function Updated(read: Option<Record>, me: NodeId, addr: string, info: FileInfo): Record {
    var base := Base(read, info);
    WithProviders(base, base.providers[me := Published(Lookup(base.providers, me), addr, info)])
  }

  predicate MayVote(read: Option<Record>, me: NodeId, vote: string) {
    read.Some? && IsVote(vote) && me in read.value.providers && read.value.providers[me].rating == ""
  }

  function Voted(r: Record, me: NodeId, vote: string): Record
    requires me in r.providers
  {
    var after := WithProviders(r, r.providers[me := r.providers[me].(rating := vote)]);
    if vote == UPVOTE then after.(upvote := r.upvote + 1) else after.(downvote := r.downvote + 1)
  }

  // ----- counting -----

  /** The voters other than one provider. */
  ghost function OtherVoters(providers: map<NodeId, Provider>, me: NodeId, vote: string): set<NodeId> {
    set p | p in providers && p != me && providers[p].rating == vote
  }

  lemma CountWith(providers: map<NodeId, Provider>, me: NodeId, vote: string)
    ensures |Voters(providers, vote)|
         == |OtherVoters(providers, me, vote)| + if me in providers && providers[me].rating == vote then 1 else 0
  {
    var others := OtherVoters(providers, me, vote);
    if me in providers && providers[me].rating == vote {
      assert Voters(providers, vote) == others + {me};
    } else {
      assert Voters(providers, vote) == others;
    }
  }

  /** Changing one entry moves that provider from one group of voters to another. */
  lemma CountAfter(providers: map<NodeId, Provider>, me: NodeId, p: Provider, vote: string)
    ensures |Voters(providers[me := p], vote)|
         == |Voters(providers, vote)|
            - (if me in providers && providers[me].rating == vote then 1 else 0)
            + (if p.rating == vote then 1 else 0)
  {
    CountWith(providers, me, vote);
    CountWith(providers[me := p], me, vote);
    assert OtherVoters(providers[me := p], me, vote) == OtherVoters(providers, me, vote);
  }

  function VoteOf(providers: map<NodeId, Provider>, me: NodeId): string {
    if me in providers then providers[me].rating else ""
  }

  /** What changing one entry does to the two counters. */
  lemma Recount(providers: map<NodeId, Provider>, me: NodeId, p: Provider)
    ensures
      var after, vote := providers[me := p], VoteOf(providers, me);
      && Ups(after) - Downs(after) == Ups(providers) - Downs(providers) + Points(p.rating) - Points(vote)
      && Ups(after) + Downs(after)
         == Ups(providers) + Downs(providers) + (if IsVote(p.rating) then 1 else 0) - if IsVote(vote) then 1 else 0
  {
    CountAfter(providers, me, p, UPVOTE);
    CountAfter(providers, me, p, DOWNVOTE);
  }

  lemma NoVoters(vote: string)
    ensures Voters(map[], vote) == {}
  {
  }

  // ----- the two updates as the code makes them -----

  /** Publishing or republishing: reads a copy if it can, adds or refreshes the own entry, casts
      the vote that is kept locally if none is recorded, and writes the copy back. */
  method UpdateFile(read: Option<Record>, me: NodeId, addr: string, info: FileInfo, provided: bool, put: bool)
    returns (r: Outcome)
    requires read.Some? ==> Consistent(read.value)
    ensures r == if provided && put then Stored(Updated(read, me, addr, info)) else Failed("dht")
    ensures r.Stored? ==> Consistent(r.record)
  {
    NoVoters(UPVOTE);
    NoVoters(DOWNVOTE);
    UpdatedConsistent(read, me, addr, info);
    var metadata;
    if read.Some? {
      metadata := read.value;
    } else {
      metadata := Record(info.hash, info.details, 0, 0, 0, 0, map[]);
    }
    metadata := UpdateEntry(metadata, me, addr, info);
    if !provided || !put {
      return Failed("dht");
    }
    return Stored(metadata);
  }

  /** The changes to a copy of the record. */
  method UpdateEntry(base: Record, me: NodeId, addr: string, info: FileInfo) returns (metadata: Record)
    requires Consistent(base)
    ensures metadata == WithProviders(base, base.providers[me := Published(Lookup(base.providers, me), addr, info)])
  {
    var provider := Provider(addr, info.isPublished, info.fee, "");
    if me in base.providers {
      provider := base.providers[me].(isActive := info.isPublished, fee := info.fee);
    }
    metadata := base.(providers := base.providers[me := provider]);
    if provider.rating == "" {
      if info.voteType == UPVOTE {
        metadata := metadata.(rating := metadata.rating + 1, numRaters := metadata.numRaters + 1);
        provider := provider.(rating := UPVOTE);
      } else if info.voteType == DOWNVOTE {
        metadata := metadata.(rating := metadata.rating - 1, numRaters := metadata.numRaters + 1);
        provider := provider.(rating := DOWNVOTE);
      }
      metadata := metadata.(providers := metadata.providers[me := provider]);
    }
    assert metadata.providers == base.providers[me := provider];
    Recount(base.providers, me, provider);
  }

  /** Voting: only a provider that has not voted may, and only up or down.  A failure to store
      the record is not reported. */
  method CastVote(read: Option<Record>, me: NodeId, vote: string) returns (r: Outcome)
    requires read.Some? ==> Consistent(read.value)
    ensures r.Stored? <==> MayVote(read, me, vote)
    ensures r.Stored? ==> r.record == Voted(read.value, me, vote) && Consistent(r.record)
  {
    if read.None? {
      return Failed("failed to retrieve file data");
    }
    var metadata := read.value;
    if vote != UPVOTE && vote != DOWNVOTE {
      return Failed("invalid vote type");
    }
    if me !in metadata.providers {
      return Failed("user is not a provider and cannot vote");
    }
    var provider := metadata.providers[me];
    if provider.rating != "" {
      return Failed("user has already voted");
    }
    if vote == UPVOTE {
      metadata := metadata.(upvote := metadata.upvote + 1, rating := metadata.rating + 1);
    } else {
      metadata := metadata.(rating := metadata.rating - 1, downvote := metadata.downvote + 1);
    }
    provider := provider.(rating := vote);
    metadata := metadata.(providers := metadata.providers[me := provider], numRaters := metadata.numRaters + 1);
    CountAfter(read.value.providers, me, provider, UPVOTE);
    CountAfter(read.value.providers, me, provider, DOWNVOTE);
    return Stored(metadata);
  }

  // ----- the two updates, field by field -----

  /** Nothing but one entry of the map changed. */
  predicate OnlyEntry(before: map<NodeId, Provider>, after: map<NodeId, Provider>, me: NodeId) {
    after.Keys == before.Keys + {me} && forall p :: p in before && p != me ==> after[p] == before[p]
  }

  /** Publishing over a copy: the own entry takes the local status and fee and keeps its address;
      a vote is cast exactly when none was recorded and one is kept locally, and the counters
      move by that vote. */
  lemma PublishedFields(r: Record, me: NodeId, addr: string, info: FileInfo)
    requires Consistent(r)
    ensures
      var after := Updated(Some(r), me, addr, info);
      var known := me in r.providers;
      var votes := (!known || r.providers[me].rating == "") && info.voteType in {"upvote", "downvote"};
      && after.hash == r.hash && after.details == r.details
      && after.upvote == r.upvote && after.downvote == r.downvote
      && OnlyEntry(r.providers, after.providers, me)
      && after.providers[me].isActive == info.isPublished && after.providers[me].fee == info.fee
      && after.providers[me].addr == (if known then r.providers[me].addr else addr)
      && after.providers[me].rating ==
           (if votes then info.voteType else if known then r.providers[me].rating else "")
      && after.rating == r.rating + (if !votes then 0 else if info.voteType == "upvote" then 1 else -1)
      && after.numRaters == r.numRaters + (if votes then 1 else 0)
  {
    Recount(r.providers, me, Published(Lookup(r.providers, me), addr, info));
  }

  /** Publishing what no copy was found of. */
  lemma PublishedAfresh(me: NodeId, addr: string, info: FileInfo)
    ensures
      var blank := Record(info.hash, info.details, 0, 0, 0, 0, map[]);
      Updated(None, me, addr, info) == Updated(Some(blank), me, addr, info)
  {
  }

  /** Voting: the vote is recorded in the own entry, and all three counters it concerns move. */
  lemma VotedFields(r: Record, me: NodeId, vote: string)
    requires Consistent(r) && MayVote(Some(r), me, vote)
    ensures
      var after := Voted(r, me, vote);
      && after.hash == r.hash && after.details == r.details
      && OnlyEntry(r.providers, after.providers, me)
      && after.providers[me].rating == vote && after.providers[me].addr == r.providers[me].addr
      && after.providers[me].isActive == r.providers[me].isActive && after.providers[me].fee == r.providers[me].fee
      && after.numRaters == r.numRaters + 1
      && (vote == "upvote" ==>
            after.rating == r.rating + 1 && after.upvote == r.upvote + 1 && after.downvote == r.downvote)
      && (vote == "downvote" ==>
            after.rating == r.rating - 1 && after.downvote == r.downvote + 1 && after.upvote == r.upvote)
  {
    Recount(r.providers, me, r.providers[me].(rating := vote));
  }

  // ----- any interleaving -----

  /** An update that is written at this point of the run.  `seen` is the position of the copy
      its read returned, among all copies ever written; a read that finds nothing has a
      position outside.  Other updates may have been written in between and are then lost. */
  datatype Event =
    | Publish(me: NodeId, addr: string, info: FileInfo, seen: nat, provided: bool, put: bool)
    | Vote(me: NodeId, vote: string, seen: nat, put: bool)

  /** The copy that an event writes, if it writes one. */
  function Written(written: seq<Record>, e: Event): Option<Record> {
    var read := if e.seen < |written| then Some(written[e.seen]) else None;
    match e
    case Publish(me, addr, info, _, provided, put) =>
      if provided && put then Some(Updated(read, me, addr, info)) else None
    case Vote(me, vote, _, put) =>
      if MayVote(read, me, vote) && put then Some(Voted(read.value, me, vote)) else None
  }

  /** Every copy written once the first n events have happened. */
  function Copies(written: seq<Record>, events: seq<Event>, n: nat): seq<Record>
    requires n <= |events|
  {
    if n == 0 then written
    else
      var before := Copies(written, events, n - 1);
      var more := Written(before, events[n - 1]);
      if more.Some? then before + [more.value] else before
  }

  /** Which events write a copy: every publication that reaches the table, and every vote that
      does, cast by a provider of the copy it read that had no vote there. */
  lemma WritesIff(written: seq<Record>, events: seq<Event>, n: nat)
    requires n < |events|
    ensures
      var e, before, after := events[n], Copies(written, events, n), Copies(written, events, n + 1);
      var writes :=
        if e.Publish? then e.provided && e.put
        else
          && e.put && e.vote in {"upvote", "downvote"} && e.seen < |before|
          && e.me in before[e.seen].providers && before[e.seen].providers[e.me].rating == "";
      if !writes then after == before
      else
        && |after| == |before| + 1 && after[..|before|] == before
        && after[|before|] ==
             if e.Publish? then
               Updated(if e.seen < |before| then Some(before[e.seen]) else None, e.me, e.addr, e.info)
             else Voted(before[e.seen], e.me, e.vote)
  {
  }

  class Dht {
    /** Every copy ever written, in the order of the writes. */
    var written: seq<Record>

    ghost predicate Valid()
      reads this
    {
      forall i :: 0 <= i < |written| ==> Consistent(written[i])
    }

    constructor ()
      ensures Valid() && written == []
    {
      written := [];
    }

    method GetValue(seen: nat) returns (r: Option<Record>)
      requires Valid()
      ensures r == if seen < |written| then Some(written[seen]) else None
      ensures r.Some? ==> Consistent(r.value)
    {
      return if seen < |written| then Some(written[seen]) else None;
    }

    method Step(e: Event)
      requires Valid()
      modifies this
      ensures Valid()
      ensures written == if Written(old(written), e).Some? then old(written) + [Written(old(written), e).value]
                         else old(written)
    {
      var read := GetValue(e.seen);
      var r;
      match e {
        case Publish(me, addr, info, _, provided, put) =>
          r := UpdateFile(read, me, addr, info, provided, put);
        case Vote(me, vote, _, _) =>
          r := CastVote(read, me, vote);
      }
      if r.Stored? && e.put {
        written := written + [r.record];
      }
    }

    /** Every copy that any run writes has counters that agree with its provider map. */
    method Run(events: seq<Event>)
      requires Valid()
      modifies this
      ensures Valid() && written == Copies(old(written), events, |events|)
    {
      for i := 0 to |events|
        invariant Valid() && written == Copies(old(written), events, i)
      {
        Step(events[i]);
      }
    }
  }

  // ----- republishing -----

  /** Publishing the same information twice changes nothing the second time. */
  lemma RepublishIdempotent(read: Option<Record>, me: NodeId, addr: string, info: FileInfo, addr': string)
    ensures
      var once := Updated(read, me, addr, info);
      Updated(Some(once), me, addr', info) == once
  {
    var once := Updated(read, me, addr, info);
    assert once.providers[me := once.providers[me]] == once.providers;
  }

  datatype Publication = Publication(me: NodeId, addr: string, info: FileInfo)

  /** The record after the first n peers have republished it, starting from an expired one. */
  function Republished(ps: seq<Publication>, n: nat): Record
    requires 0 < n <= |ps|
  {
    var p := ps[n - 1];
    Updated(if n == 1 then None else Some(Republished(ps, n - 1)), p.me, p.addr, p.info)
  }

  predicate DistinctPeers(ps: seq<Publication>) {
    forall i, j :: 0 <= i < j < |ps| ==> ps[i].me != ps[j].me
  }

  lemma {:induction false} RepublishedProviders(ps: seq<Publication>, n: nat)
    requires 0 < n <= |ps| && DistinctPeers(ps)
    ensures forall k :: 0 <= k < n ==>
      ps[k].me in Republished(ps, n).providers
      && Republished(ps, n).providers[ps[k].me] == Published(None, ps[k].addr, ps[k].info)
    ensures forall p :: p in Republished(ps, n).providers ==> exists k :: 0 <= k < n && ps[k].me == p
  {
    if n > 1 {
      RepublishedProviders(ps, n - 1);
    }
    var p := ps[n - 1].me;
    var before := if n == 1 then map[] else Republished(ps, n - 1).providers;
    assert p !in before;
    assert Republished(ps, n).providers == before[p := Published(None, ps[n - 1].addr, ps[n - 1].info)];
  }

  lemma RepublishedCounters(ps: seq<Publication>, n: nat)
    requires 0 < n <= |ps|
    ensures
      var r := Republished(ps, n);
      r.rating == Ups(r.providers) - Downs(r.providers) && r.numRaters == Ups(r.providers) + Downs(r.providers)
  {
  }

  /** Distinct peers that republish onto an expired record arrive at the same providers, rating
      and number of raters in any order. */
  lemma RepublishOrderIrrelevant(a: seq<Publication>, b: seq<Publication>)
    requires a != [] && b != [] && DistinctPeers(a) && DistinctPeers(b)
    requires forall p :: p in a <==> p in b
    ensures
      var ra, rb := Republished(a, |a|), Republished(b, |b|);
      ra.providers == rb.providers && ra.rating == rb.rating && ra.numRaters == rb.numRaters
  {
    Within(a, b);
    Within(b, a);
    SameEntries(Republished(a, |a|).providers, Republished(b, |b|).providers);
    RepublishedCounters(a, |a|);
    RepublishedCounters(b, |b|);
  }

  lemma SameEntries(ma: map<NodeId, Provider>, mb: map<NodeId, Provider>)
    requires Includes(ma, mb) && Includes(mb, ma)
    ensures ma == mb
  {
  }

  predicate Includes(big: map<NodeId, Provider>, small: map<NodeId, Provider>) {
    forall p :: p in small ==> p in big && big[p] == small[p]
  }

  /** Each entry that the first order leads to is also there in the other. */
  lemma Within(a: seq<Publication>, b: seq<Publication>)
    requires a != [] && b != [] && DistinctPeers(a) && DistinctPeers(b)
    requires forall p :: p in a ==> p in b
    ensures Includes(Republished(b, |b|).providers, Republished(a, |a|).providers)
  {
    var ma, mb := Republished(a, |a|).providers, Republished(b, |b|).providers;
    RepublishedProviders(a, |a|);
    RepublishedProviders(b, |b|);
    forall p | p in ma
      ensures p in mb && mb[p] == ma[p]
    {
      var k :| 0 <= k < |a| && a[k].me == p;
      assert a[k] in b;
      var j :| 0 <= j < |b| && b[j] == a[k];
    }
  }

  // ----- Upvote and Downvote against Rating -----

  /** How far Rating is from Upvote minus Downvote. */
  function Gap(r: Record): int {
    r.rating - (r.upvote - r.downvote)
  }

  function Points(vote: string): int {
    if vote == UPVOTE then 1 else if vote == DOWNVOTE then -1 else 0
  }

  /** What publishing adds to the gap: the vote it casts, if it casts one. */
  function PublishedVote(read: Option<Record>, me: NodeId, info: FileInfo): int {
    var base := Base(read, info);
    if me in base.providers && base.providers[me].rating != "" then 0 else Points(info.voteType)
  }

  /** Publishing moves the gap by the vote it casts, and voting does not move it. */
  lemma GapAfterPublish(read: Option<Record>, me: NodeId, addr: string, info: FileInfo)
    requires read.Some? ==> Consistent(read.value)
    ensures Gap(Updated(read, me, addr, info)) == Gap(Base(read, info)) + PublishedVote(read, me, info)
  {
    var base := Base(read, info);
    var p := Published(Lookup(base.providers, me), addr, info);
    NoVoters(UPVOTE);
    NoVoters(DOWNVOTE);
    CountAfter(base.providers, me, p, UPVOTE);
    CountAfter(base.providers, me, p, DOWNVOTE);
  }

  lemma GapAfterVote(r: Record, me: NodeId, vote: string)
    requires Consistent(r) && MayVote(Some(r), me, vote)
    ensures Gap(Voted(r, me, vote)) == Gap(r)
  {
    var p := r.providers[me].(rating := vote);
    CountAfter(r.providers, me, p, UPVOTE);
    CountAfter(r.providers, me, p, DOWNVOTE);
  }

  /** From a record in which Upvote minus Downvote is the rating, publishing keeps it so exactly
      when it casts no vote. */
  lemma PublishKeepsUpvotesIff(read: Option<Record>, me: NodeId, addr: string, info: FileInfo)
    requires read.Some? ==> Consistent(read.value)
    requires Gap(Base(read, info)) == 0
    ensures Gap(Updated(read, me, addr, info)) == 0 <==>
      !(IsVote(info.voteType) &&
        (me !in Base(read, info).providers || Base(read, info).providers[me].rating == ""))
  {
    GapAfterPublish(read, me, addr, info);
  }

  /** The points of the votes that were cast by publishing, for each copy of a run: those of the
      copy it was made from, and its own. */
  function PublishedPoints(events: seq<Event>, n: nat): (points: seq<int>)
    requires n <= |events|
    ensures |points| == |Copies([], events, n)|
  {
    if n == 0 then []
    else
      var before, points, e := Copies([], events, n - 1), PublishedPoints(events, n - 1), events[n - 1];
      if Written(before, e).None? then points
      else
        var inherited := if e.seen < |before| then points[e.seen] else 0;
        match e
        case Publish(me, _, info, seen, _, _) =>
          var read := if seen < |before| then Some(before[seen]) else None;
          points + [inherited + PublishedVote(read, me, info)]
        case Vote(_, _, _, _) => points + [inherited]
  }

  lemma {:induction false} CopiesConsistent(events: seq<Event>, n: nat)
    requires n <= |events|
    ensures forall i :: 0 <= i < |Copies([], events, n)| ==> Consistent(Copies([], events, n)[i])
  {
    if n > 0 {
      CopiesConsistent(events, n - 1);
      WrittenConsistent(Copies([], events, n - 1), events[n - 1]);
    }
  }

  lemma WrittenConsistent(written: seq<Record>, e: Event)
    requires forall i :: 0 <= i < |written| ==> Consistent(written[i])
    ensures Written(written, e).Some? ==> Consistent(Written(written, e).value)
  {
    var read := if e.seen < |written| then Some(written[e.seen]) else None;
    match e {
      case Publish(me, addr, info, _, _, _) => UpdatedConsistent(read, me, addr, info);
      case Vote(me, vote, _, _) =>
        if MayVote(read, me, vote) {
          VotedConsistent(read.value, me, vote);
        }
    }
  }

  lemma UpdatedConsistent(read: Option<Record>, me: NodeId, addr: string, info: FileInfo)
    requires read.Some? ==> Consistent(read.value)
    ensures Consistent(Updated(read, me, addr, info))
  {
    var base := Base(read, info);
    var p := Published(Lookup(base.providers, me), addr, info);
    NoVoters(UPVOTE);
    NoVoters(DOWNVOTE);
    CountAfter(base.providers, me, p, UPVOTE);
    CountAfter(base.providers, me, p, DOWNVOTE);
  }

  lemma VotedConsistent(r: Record, me: NodeId, vote: string)
    requires Consistent(r) && MayVote(Some(r), me, vote)
    ensures Consistent(Voted(r, me, vote))
  {
    var p := r.providers[me].(rating := vote);
    CountAfter(r.providers, me, p, UPVOTE);
    CountAfter(r.providers, me, p, DOWNVOTE);
  }

  /** In any run, Upvote minus Downvote falls short of the rating of a copy by exactly the votes
      that were cast by publishing on the way to that copy. */
  lemma {:induction false} GapIsPublishedPoints(events: seq<Event>, n: nat, i: nat)
    requires n <= |events| && i < |Copies([], events, n)|
    ensures Gap(Copies([], events, n)[i]) == PublishedPoints(events, n)[i]
  {
    var before, e := Copies([], events, n - 1), events[n - 1];
    CopiesConsistent(events, n - 1);
    if i < |before| {
      GapIsPublishedPoints(events, n - 1, i);
    } else {
      if e.seen < |before| {
        GapIsPublishedPoints(events, n - 1, e.seen);
      }
      GapWritten(before, e);
    }
  }

  lemma GapWritten(written: seq<Record>, e: Event)
    requires (forall i :: 0 <= i < |written| ==> Consistent(written[i])) && Written(written, e).Some?
    ensures
      var read := if e.seen < |written| then Some(written[e.seen]) else None;
      Gap(Written(written, e).value)
      == (if read.Some? then Gap(read.value) else 0) + if e.Publish? then PublishedVote(read, e.me, e.info) else 0
  {
    var read := if e.seen < |written| then Some(written[e.seen]) else None;
    match e {
      case Publish(me, addr, info, _, _, _) => GapAfterPublish(read, me, addr, info);
      case Vote(me, vote, _, _) => GapAfterVote(read.value, me, vote);
    }
  }

  /** Which copies of a run satisfy the equation. */
  lemma UpvotesAgreeIff(events: seq<Event>, i: nat)
    requires i < |Copies([], events, |events|)|
    ensures
      var r := Copies([], events, |events|)[i];
      r.upvote - r.downvote == r.rating <==> PublishedPoints(events, |events|)[i] == 0
  {
    GapIsPublishedPoints(events, |events|, i);
  }

  /** Upvote minus Downvote is not the rating: a vote that comes with publishing is in the one
      but not in the other. */
  lemma UpvotesMissVotes(me: NodeId, addr: string, hash: string, details: string)
    ensures
      var r := Updated(None, me, addr, FileInfo(hash, details, true, 0, UPVOTE));
      r.rating == 1 && r.upvote - r.downvote == 0
  {
    var p := Provider(addr, true, 0, UPVOTE);
    assert Voters(map[me := p], UPVOTE) == {me};
    assert Voters(map[me := p], DOWNVOTE) == {};
  }
}
