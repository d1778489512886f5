/** A two-way index of watch requests: from a key (an outpoint or an address) to the
    clients watching it, and from a client to the keys it asked for. */
module WatchIndex {
  import opened Wire

  datatype Index<K> = Index(watchers: map<K, set<ClientId>>, requests: map<ClientId, set<K>>)

  function Watchers<K>(x: Index<K>, k: K): set<ClientId> {
    if k in x.watchers then x.watchers[k] else {}
  }

  function Requests<K>(x: Index<K>, c: ClientId): set<K> {
    if c in x.requests then x.requests[c] else {}
  }

  /** The plain relation the index stands for. */
  predicate Watches<K>(x: Index<K>, k: K, c: ClientId) {
    c in Watchers(x, k)
  }

  /** Both directions agree and no key is kept without a watcher. */
  ghost predicate Valid<K(!new)>(x: Index<K>) {
    && (forall k :: k in x.watchers ==> x.watchers[k] != {})
    && (forall k, c :: Watches(x, k, c) <==> k in Requests(x, c))
  }

  function Empty<K(!new)>(): (x: Index<K>)
    ensures Valid(x) && forall k, c :: !Watches(x, k, c)
  {
    Index(map[], map[])
  }

  /** Registers a request: first with the client, then with the key, whose client map is
      made when needed. */
  function Add<K(!new)>(x: Index<K>, c: ClientId, k: K): (y: Index<K>)
    requires Valid(x)
    ensures Valid(y)
    ensures forall j, d :: Watches(y, j, d) <==> Watches(x, j, d) || (j == k && d == c)
  {
    var y := Index(x.watchers[k := Watchers(x, k) + {c}], x.requests[c := Requests(x, c) + {k}]);
    assert forall d :: Requests(y, d) == if d == c then Requests(x, c) + {k} else Requests(x, d);
    y
  }

  /** Removes a request.  A key without watchers is left alone; a key that loses its last
      watcher is dropped. */
  function Remove<K(!new)>(x: Index<K>, c: ClientId, k: K): (y: Index<K>)
    requires Valid(x)
    ensures Valid(y)
    ensures forall j, d :: Watches(y, j, d) <==> Watches(x, j, d) && !(j == k && d == c)
  {
    var requests := x.requests[c := Requests(x, c) - {k}];
    if k !in x.watchers then
      var y := Index(x.watchers, requests);
      assert forall d :: Requests(y, d) == if d == c then Requests(x, c) - {k} else Requests(x, d);
      assert forall d :: !Watches(x, k, d);
      y
    else
      var left := x.watchers[k] - {c};
      var y := Index(if left == {} then x.watchers - {k} else x.watchers[k := left], requests);
      assert forall d :: Requests(y, d) == if d == c then Requests(x, c) - {k} else Requests(x, d);
      assert forall j :: Watchers(y, j) == if j == k then left else Watchers(x, j);
      y
  }

  /** Removes every request of a client by walking its request set while each removal
      shrinks that very set. */
  method RemoveAll<K(!new)>(x: Index<K>, c: ClientId) returns (y: Index<K>)
    requires Valid(x)
    ensures Valid(y)
    ensures forall j, d :: Watches(y, j, d) <==> Watches(x, j, d) && d != c
    ensures Requests(y, c) == {}
  {
    y := x;
    while Requests(y, c) != {}
      invariant Valid(y)
      invariant forall j, d :: Watches(y, j, d) ==> Watches(x, j, d)
      invariant forall j, d :: Watches(x, j, d) && d != c ==> Watches(y, j, d)
      decreases Requests(y, c)
    {
      var k :| k in Requests(y, c);
      ghost var before := y;
      y := Remove(y, c, k);
      assert forall j :: j in Requests(y, c) <==> Watches(y, j, c);
      assert forall j :: j in Requests(before, c) <==> Watches(before, j, c);
      assert Requests(y, c) == Requests(before, c) - {k};
    }
  }
}
