/** Merging user-supplied checkpoints into the built-in ones. */
module Checkpoints {
  import opened Wire

  datatype Height = Height(value: int)

  datatype Checkpoint = Checkpoint(height: Height, hash: Hash)

  // ----- what the merge should contain -----

  /** The last-specified checkpoint at a height. */
  function LastAt(s: seq<Checkpoint>, h: Height): (r: Option<Checkpoint>)
    ensures r.Some? ==> r.value.height == h && r.value in s
    ensures r.None? <==> forall c :: c in s ==> c.height != h
  {
    if s == [] then None
    else
      var n := |s| - 1;
      assert s == s[..n] + [s[n]];
      if s[n].height == h then Some(s[n]) else LastAt(s[..n], h)
  }

  predicate Overridden(additional: seq<Checkpoint>, h: Height) {
    LastAt(additional, h).Some?
  }

  /** The default checkpoints that no additional one overrides. */
  function Unoverridden(defaults: seq<Checkpoint>, additional: seq<Checkpoint>, n: nat): seq<Checkpoint>
    requires n <= |defaults|
  {
    if n == 0 then []
    else if Overridden(additional, defaults[n - 1].height) then Unoverridden(defaults, additional, n - 1)
    else Unoverridden(defaults, additional, n - 1) + [defaults[n - 1]]
  }

  /** The additional checkpoints that count: the last one at each height. */
  function Extras(additional: seq<Checkpoint>): set<Checkpoint> {
    set c | c in additional && LastAt(additional, c.height) == Some(c)
  }

  predicate Ascending(s: seq<Checkpoint>) {
    forall i, j :: 0 <= i < j < |s| ==> s[i].height.value <= s[j].height.value
  }

  predicate StrictlyAscending(s: seq<Checkpoint>) {
    forall i, j :: 0 <= i < j < |s| ==> s[i].height.value < s[j].height.value
  }

  predicate DistinctHeights(s: seq<Checkpoint>) {
    forall i, j :: 0 <= i < j < |s| ==> s[i].height != s[j].height
  }

  /** Any ordering by height of the checkpoints that are kept; the sort need not be stable. */
  ghost predicate IsMerge(out: seq<Checkpoint>, defaults: seq<Checkpoint>, additional: seq<Checkpoint>) {
    && Ascending(out)
    && multiset(out) == multiset(Unoverridden(defaults, additional, |defaults|)) + multiset(Extras(additional))
  }

  // ----- the merge -----

  function Insert(c: Checkpoint, s: seq<Checkpoint>): seq<Checkpoint> {
    if s == [] || c.height.value <= s[0].height.value then [c] + s else [s[0]] + Insert(c, s[1..])
  }

  lemma Prepend(c: Checkpoint, s: seq<Checkpoint>)
    requires Ascending(s) && forall x :: x in s ==> c.height.value <= x.height.value
    ensures Ascending([c] + s)
  {
  }

  lemma {:induction false} InsertSorts(c: Checkpoint, s: seq<Checkpoint>)
    requires Ascending(s)
    ensures Ascending(Insert(c, s)) && multiset(Insert(c, s)) == multiset(s) + multiset{c}
  {
    if s == [] || c.height.value <= s[0].height.value {
      Prepend(c, s);
    } else {
      var rest := Insert(c, s[1..]);
      InsertSorts(c, s[1..]);
      assert s == [s[0]] + s[1..];
      forall x | x in rest
        ensures s[0].height.value <= x.height.value
      {
        assert x in multiset(rest);
        if x != c {
          assert x in multiset(s[1..]);
        }
      }
      Prepend(s[0], rest);
    }
  }

  method SortByHeight(s: seq<Checkpoint>) returns (r: seq<Checkpoint>)
    ensures Ascending(r) && multiset(r) == multiset(s)
  {
    r := [];
    for i := 0 to |s|
      invariant Ascending(r) && multiset(r) == multiset(s[..i])
    {
      assert s[..i + 1] == s[..i] + [s[i]];
      InsertSorts(s[i], r);
      r := Insert(s[i], r);
    }
    assert s[..|s|] == s;
  }

  method Merge(defaults: seq<Checkpoint>, additional: seq<Checkpoint>) returns (out: seq<Checkpoint>)
    ensures IsMerge(out, defaults, additional)
  {
    var extra := CollectExtra(additional);
    out := [];
    for i := 0 to |defaults|
      invariant out == Unoverridden(defaults, additional, i)
    {
      if defaults[i].height !in extra {
        out := out + [defaults[i]];
      }
    }
    var appended := AppendExtra(out, additional, extra);
    out := SortByHeight(appended);
  }

  /** Later checkpoints replace earlier ones at the same height. */
  method CollectExtra(additional: seq<Checkpoint>) returns (extra: map<Height, Checkpoint>)
    ensures forall h :: h in extra <==> Overridden(additional, h)
    ensures forall h :: h in extra ==> LastAt(additional, h) == Some(extra[h])
  {
    extra := map[];
    for i := 0 to |additional|
      invariant forall h :: h in extra <==> Overridden(additional[..i], h)
      invariant forall h :: h in extra ==> LastAt(additional[..i], h) == Some(extra[h])
    {
      assert additional[..i + 1][..i] == additional[..i];
      extra := extra[additional[i].height := additional[i]];
    }
    assert additional[..|additional|] == additional;
  }

  method AppendExtra(kept: seq<Checkpoint>, additional: seq<Checkpoint>, extra: map<Height, Checkpoint>)
    returns (out: seq<Checkpoint>)
    requires forall h :: h in extra <==> Overridden(additional, h)
    requires forall h :: h in extra ==> LastAt(additional, h) == Some(extra[h])
    ensures multiset(out) == multiset(kept) + multiset(Extras(additional))
  {
    out := kept;
    var todo := extra.Keys;
    ghost var done: set<Checkpoint> := {};
    while todo != {}
      invariant todo <= extra.Keys && done <= Extras(additional)
      invariant forall c :: c in done ==> c.height !in todo
      invariant forall c :: c in Extras(additional) ==> c in done || c.height in todo
      invariant multiset(out) == multiset(kept) + multiset(done)
      decreases |todo|
    {
      var h :| h in todo;
      assert extra[h] in Extras(additional) && extra[h] !in done;
      out := out + [extra[h]];
      done := done + {extra[h]};
      todo := todo - {h};
    }
    assert done == Extras(additional);
  }

  // ----- what any merge contains -----

  /** Exactly the additional checkpoints that were specified last for their height, and the
      defaults at all other heights. */
  lemma MergeContains(out: seq<Checkpoint>, defaults: seq<Checkpoint>, additional: seq<Checkpoint>, c: Checkpoint)
    requires IsMerge(out, defaults, additional)
    ensures c in out <==>
      if Overridden(additional, c.height) then LastAt(additional, c.height) == Some(c) else c in defaults
  {
    UnoverriddenContains(defaults, additional, |defaults|, c);
    assert c in out <==> c in multiset(out);
    if Overridden(additional, c.height) && LastAt(additional, c.height) == Some(c) {
      assert c in Extras(additional);
    }
  }

  lemma {:induction false} UnoverriddenContains(
    defaults: seq<Checkpoint>, additional: seq<Checkpoint>, n: nat, c: Checkpoint)
    requires n <= |defaults|
    ensures c in Unoverridden(defaults, additional, n) <==> c in defaults[..n] && !Overridden(additional, c.height)
  {
    if n > 0 {
      UnoverriddenContains(defaults, additional, n - 1, c);
      assert defaults[..n] == defaults[..n - 1] + [defaults[n - 1]];
    }
  }

  // ----- when the heights are distinct -----

  function CountAt(s: seq<Checkpoint>, h: Height): nat {
    if s == [] then 0 else CountAt(s[1..], h) + if s[0].height == h then 1 else 0
  }

  lemma {:induction false} CountConcat(a: seq<Checkpoint>, b: seq<Checkpoint>, h: Height)
    ensures CountAt(a + b, h) == CountAt(a, h) + CountAt(b, h)
  {
    if a == [] {
      assert a + b == b;
    } else {
      assert (a + b)[1..] == a[1..] + b;
      CountConcat(a[1..], b, h);
    }
  }

  function Without(s: seq<Checkpoint>, k: nat): seq<Checkpoint>
    requires k < |s|
  {
    s[..k] + s[k + 1..]
  }

  lemma CountWithout(s: seq<Checkpoint>, k: nat, h: Height)
    requires k < |s|
    ensures multiset(Without(s, k)) == multiset(s) - multiset{s[k]}
    ensures CountAt(s, h) == CountAt(Without(s, k), h) + if s[k].height == h then 1 else 0
  {
    var tail := [s[k]] + s[k + 1..];
    assert s == s[..k] + tail && tail[1..] == s[k + 1..];
    CountConcat(s[..k], tail, h);
    CountConcat(s[..k], s[k + 1..], h);
  }

  /** The count depends on the elements only, not on their order. */
  lemma {:induction false} CountOfPermutation(a: seq<Checkpoint>, b: seq<Checkpoint>, h: Height)
    requires multiset(a) == multiset(b)
    ensures CountAt(a, h) == CountAt(b, h)
    decreases |a|
  {
    if a == [] {
      assert |multiset(b)| == 0;
    } else {
      assert a[0] in multiset(b);
      var k :| 0 <= k < |b| && b[k] == a[0];
      CountWithout(a, 0, h);
      CountWithout(b, k, h);
      CountOfPermutation(Without(a, 0), Without(b, k), h);
    }
  }

  lemma {:induction false} CountPositive(s: seq<Checkpoint>, h: Height)
    ensures CountAt(s, h) > 0 <==> exists i :: 0 <= i < |s| && s[i].height == h
  {
    if s != [] {
      CountPositive(s[1..], h);
      if i :| 0 <= i < |s[1..]| && s[1..][i].height == h {
        assert s[i + 1].height == h;
      }
      if i :| 0 < i < |s| && s[i].height == h {
        assert s[1..][i - 1].height == h;
      }
    }
  }

  lemma TwiceIff(s: seq<Checkpoint>)
    ensures forall h :: CountAt(s, h) >= 2 <==> exists i, j :: 0 <= i < j < |s| && s[i].height == h && s[j].height == h
  {
    forall h
      ensures CountAt(s, h) >= 2 <==> exists i, j :: 0 <= i < j < |s| && s[i].height == h && s[j].height == h
    {
      TwiceAtIff(s, h);
    }
  }

  lemma {:induction false} TwiceAtIff(s: seq<Checkpoint>, h: Height)
    ensures CountAt(s, h) >= 2 <==> exists i, j :: 0 <= i < j < |s| && s[i].height == h && s[j].height == h
  {
    if s != [] {
      var t := s[1..];
      TwiceAtIff(t, h);
      CountPositive(t, h);
      if i, j :| 0 <= i < j < |s| && s[i].height == h && s[j].height == h {
        assert t[j - 1].height == h;
        if i > 0 {
          assert t[i - 1].height == h;
        }
      }
      if CountAt(s, h) >= 2 {
        if s[0].height == h {
          var j :| 0 <= j < |t| && t[j].height == h;
          assert s[j + 1].height == h;
        } else {
          var i, j :| 0 <= i < j < |t| && t[i].height == h && t[j].height == h;
          assert s[i + 1].height == h && s[j + 1].height == h;
        }
      }
    }
  }

  lemma DistinctIffCounts(s: seq<Checkpoint>)
    ensures DistinctHeights(s) <==> forall h :: CountAt(s, h) <= 1
  {
    TwiceIff(s);
    if i, j :| 0 <= i < j < |s| && s[i].height == s[j].height {
      assert CountAt(s, s[i].height) >= 2;
    }
  }

  lemma {:induction false} UnoverriddenCount(defaults: seq<Checkpoint>, additional: seq<Checkpoint>, n: nat, h: Height)
    requires n <= |defaults|
    ensures CountAt(Unoverridden(defaults, additional, n), h)
         == if Overridden(additional, h) then 0 else CountAt(defaults[..n], h)
  {
    if n > 0 {
      UnoverriddenCount(defaults, additional, n - 1, h);
      var last := defaults[n - 1];
      assert defaults[..n] == defaults[..n - 1] + [last];
      CountConcat(defaults[..n - 1], [last], h);
      CountConcat(Unoverridden(defaults, additional, n - 1), [last], h);
      assert CountAt([last], h) == if last.height == h then 1 else 0;
    }
  }

  /** A set listed in some order, every element once. */
  lemma {:induction false} ExtrasCount(s: seq<Checkpoint>, additional: seq<Checkpoint>, h: Height)
    requires multiset(s) == multiset(Extras(additional))
    ensures CountAt(s, h) == if Overridden(additional, h) then 1 else 0
  {
    CountPositive(s, h);
    DistinctIffCounts(s);
    forall i, j | 0 <= i < j < |s|
      ensures s[i].height != s[j].height
    {
      assert s[i] in multiset(s) && s[j] in multiset(s);
      if s[i] == s[j] {
        CountTwice(s, i, j);
      }
    }
    forall i | 0 <= i < |s|
      ensures Overridden(additional, s[i].height)
    {
      assert s[i] in multiset(s);
    }
    if Overridden(additional, h) {
      var c := LastAt(additional, h).value;
      assert c in Extras(additional) && c in multiset(s);
      var i :| 0 <= i < |s| && s[i] == c;
    }
  }

  lemma CountTwice(s: seq<Checkpoint>, i: nat, j: nat)
    requires i < j < |s| && s[i] == s[j]
    ensures multiset(s)[s[i]] >= 2
  {
    assert s == s[..i] + [s[i]] + s[i + 1..j] + [s[j]] + s[j + 1..];
  }

  lemma Listed(x: set<Checkpoint>) returns (s: seq<Checkpoint>)
    ensures multiset(s) == multiset(x)
  {
    s := [];
    var todo := x;
    while todo != {}
      invariant todo <= x && multiset(s) == multiset(x - todo)
      decreases |todo|
    {
      var c :| c in todo;
      assert x - (todo - {c}) == (x - todo) + {c};
      s, todo := s + [c], todo - {c};
    }
    assert x - todo == x;
  }

  lemma MergeCount(out: seq<Checkpoint>, defaults: seq<Checkpoint>, additional: seq<Checkpoint>, h: Height)
    requires IsMerge(out, defaults, additional)
    ensures CountAt(out, h) == if Overridden(additional, h) then 1 else CountAt(defaults, h)
  {
    var kept := Unoverridden(defaults, additional, |defaults|);
    var extra := Listed(Extras(additional));
    CountOfPermutation(out, kept + extra, h);
    CountConcat(kept, extra, h);
    ExtrasCount(extra, additional, h);
    UnoverriddenCount(defaults, additional, |defaults|, h);
    assert defaults[..|defaults|] == defaults;
  }

  /** A merge is strictly increasing in height exactly when no two defaults share a height that
      is not overridden. */
  lemma StrictIff(out: seq<Checkpoint>, defaults: seq<Checkpoint>, additional: seq<Checkpoint>)
    requires IsMerge(out, defaults, additional)
    ensures StrictlyAscending(out) <==>
      forall i, j :: 0 <= i < j < |defaults| && defaults[i].height == defaults[j].height ==>
        Overridden(additional, defaults[i].height)
  {
    assert StrictlyAscending(out) <==> DistinctHeights(out) by {
      assert forall a: Height, b: Height :: a.value == b.value ==> a == b;
    }
    DistinctIffCounts(out);
    ClashesIff(defaults, additional);
    if h :| CountAt(out, h) > 1 {
      MergeCount(out, defaults, additional, h);
      assert !Overridden(additional, h) && CountAt(defaults, h) > 1;
    }
    if h :| !Overridden(additional, h) && CountAt(defaults, h) > 1 {
      MergeCount(out, defaults, additional, h);
      assert CountAt(out, h) > 1;
    }
  }

  lemma ClashesIff(defaults: seq<Checkpoint>, additional: seq<Checkpoint>)
    ensures (forall h :: Overridden(additional, h) || CountAt(defaults, h) <= 1) <==>
      forall i, j :: 0 <= i < j < |defaults| && defaults[i].height == defaults[j].height ==>
        Overridden(additional, defaults[i].height)
  {
    TwiceIff(defaults);
    if i, j :| 0 <= i < j < |defaults| && defaults[i].height == defaults[j].height
               && !Overridden(additional, defaults[i].height) {
      assert CountAt(defaults, defaults[i].height) >= 2;
    }
  }
}
