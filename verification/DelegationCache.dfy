/** The bounded cache of delegations (server/retrieval/cache.go): least recently used
    entries go first. */
module DelegationCache {
  import opened Graph

  const MEMORY_DELEGATION_CACHE_SIZE: nat := 100

  function LinkSet(ds: seq<Delegation>): set<Link> {
    set d | d in ds :: d.Link()
  }

  /** Entries from the least to the most recently used. */
  datatype Lru = Lru(capacity: nat, entries: seq<Delegation>)
  {
    ghost predicate Valid() {
      0 < capacity && |entries| <= capacity && NoRepeats(entries)
    }

    function Keys(): set<Link> { LinkSet(entries) }

    function Get(link: Link): (r: Option<Delegation>)
      ensures r.Some? <==> link in Keys()
      ensures r.Some? ==> r.value in entries && r.value.Link() == link
    {
      Find(entries, link)
    }

    /** A hit makes the entry the most recently used. */
    function Touch(link: Link): Lru {
      match Get(link)
      case None => this
      case Some(d) => this.(entries := Without(entries, link) + [d])
    }

    /** Adding replaces an entry or, in a full cache, evicts the least recently used. */
    function Add(d: Delegation): Lru {
      var rest := Without(entries, d.Link());
      this.(entries := (if |rest| == capacity && rest != [] then rest[1..] else rest) + [d])
    }
  }

  function Find(ds: seq<Delegation>, link: Link): (r: Option<Delegation>)
    ensures r.Some? <==> link in LinkSet(ds)
    ensures r.Some? ==> r.value in ds && r.value.Link() == link
  {
    if ds == [] then None
    else if ds[0].Link() == link then assert ds[0] in ds; Some(ds[0])
    else assert ds == [ds[0]] + ds[1..]; Find(ds[1..], link)
  }

  function Without(ds: seq<Delegation>, link: Link): (r: seq<Delegation>)
    ensures forall d :: d in r <==> d in ds && d.Link() != link
    ensures |r| <= |ds|
  {
    if ds == [] then []
    else
      var n := |ds| - 1;
      assert ds == ds[..n] + [ds[n]];
      if ds[n].Link() == link then Without(ds[..n], link) else Without(ds[..n], link) + [ds[n]]
  }

  // ---- What survives in a least recently used cache ----

  lemma {:induction false} WithoutDistinct(ds: seq<Delegation>, link: Link)
    requires NoRepeats(ds)
    ensures NoRepeats(Without(ds, link))
    ensures link in LinkSet(ds) ==> |Without(ds, link)| + 1 == |ds|
    ensures link !in LinkSet(ds) ==> Without(ds, link) == ds
  {
    if ds != [] {
      var n := |ds| - 1;
      assert ds == ds[..n] + [ds[n]];
      WithoutDistinct(ds[..n], link);
      if ds[n].Link() == link {
        assert link !in LinkSet(ds[..n]);
      }
    }
  }

  lemma {:induction false} WithoutConcat(a: seq<Delegation>, b: seq<Delegation>, link: Link)
    ensures Without(a + b, link) == Without(a, link) + Without(b, link)
  {
    if b == [] {
      assert a + b == a;
    } else {
      var n := |b| - 1;
      assert (a + b)[..|a + b| - 1] == a + b[..n];
      WithoutConcat(a, b[..n], link);
    }
  }

  /** The links in `used` are the most recently used entries of the cache. */
  ghost predicate Recent(c: Lru, used: set<Link>) {
    exists n: nat :: n <= |c.entries| && LinkSet(c.entries[n..]) == used
  }

  lemma LinkSetConcat(a: seq<Delegation>, b: seq<Delegation>)
    ensures LinkSet(a + b) == LinkSet(a) + LinkSet(b)
  {
    assert forall d :: d in a + b <==> d in a || d in b;
  }

  lemma LinkSetWithout(ds: seq<Delegation>, link: Link)
    ensures LinkSet(Without(ds, link)) == LinkSet(ds) - {link}
  {
  }

  lemma {:induction false} LinkSetSize(ds: seq<Delegation>)
    requires NoRepeats(ds)
    ensures |LinkSet(ds)| == |ds|
  {
    if ds != [] {
      var n := |ds| - 1;
      LinkSetSize(ds[..n]);
      assert ds == ds[..n] + [ds[n]];
      LinkSetConcat(ds[..n], [ds[n]]);
      assert LinkSet([ds[n]]) == {ds[n].Link()};
      assert ds[n].Link() !in LinkSet(ds[..n]);
    }
  }

  function MoveToEnd(ds: seq<Delegation>, d: Delegation): seq<Delegation> {
    Without(ds, d.Link()) + [d]
  }

  lemma MovedEntries(ds: seq<Delegation>, d: Delegation)
    requires NoRepeats(ds)
    ensures NoRepeats(MoveToEnd(ds, d))
    ensures LinkSet(MoveToEnd(ds, d)) == LinkSet(ds) + {d.Link()}
  {
    WithoutDistinct(ds, d.Link());
    LinkSetConcat(Without(ds, d.Link()), [d]);
    LinkSetWithout(ds, d.Link());
    assert LinkSet([d]) == {d.Link()};
  }

  /** Moving `d` to the end keeps the tail from `n` recent, and adds `d` to it. */
  lemma MovedTail(ds: seq<Delegation>, n: nat, d: Delegation) returns (m: nat)
    requires n <= |ds|
    ensures m < |MoveToEnd(ds, d)| && LinkSet(MoveToEnd(ds, d)[m..]) == LinkSet(ds[n..]) + {d.Link()}
  {
    assert ds == ds[..n] + ds[n..];
    WithoutConcat(ds[..n], ds[n..], d.Link());
    m := |Without(ds[..n], d.Link())|;
    assert MoveToEnd(ds, d)[m..] == MoveToEnd(ds[n..], d);
    LinkSetConcat(Without(ds[n..], d.Link()), [d]);
    LinkSetWithout(ds[n..], d.Link());
    assert LinkSet([d]) == {d.Link()};
  }

  lemma TouchMoves(c: Lru, link: Link) returns (d: Delegation)
    requires c.Valid() && link in c.Keys()
    ensures d.Link() == link && c.Touch(link) == Lru(c.capacity, MoveToEnd(c.entries, d))
    ensures |MoveToEnd(c.entries, d)| == |c.entries|
  {
    d := c.Get(link).value;
    WithoutDistinct(c.entries, link);
  }

  /** A hit evicts nothing and adds its link to the most recently used. */
  lemma TouchKeeps(c: Lru, link: Link, used: set<Link>)
    requires c.Valid() && link in c.Keys() && Recent(c, used)
    ensures c.Touch(link).Valid() && c.Touch(link).Keys() == c.Keys()
    ensures c.Touch(link).capacity == c.capacity
    ensures Recent(c.Touch(link), used + {link})
  {
    var d := TouchMoves(c, link);
    hide MoveToEnd;
    var n: nat :| n <= |c.entries| && LinkSet(c.entries[n..]) == used;
    MovedEntries(c.entries, d);
    var m := MovedTail(c.entries, n, d);
    var touched := c.Touch(link);
    assert LinkSet(touched.entries[m..]) == used + {link};
  }

  /** Dropping the first of too many entries leaves a short enough tail alone. */
  lemma EvictKeeps(ds: seq<Delegation>, m: nat, used: set<Link>)
    requires NoRepeats(ds) && m < |ds| && LinkSet(ds[m..]) == used && |used| < |ds|
    ensures m > 0 && ds[1..][m - 1..] == ds[m..]
    ensures NoRepeats(ds[1..]) && LinkSet(ds[1..]) <= LinkSet(ds)
  {
    LinkSetSize(ds[m..]);
    assert forall i, j :: 0 <= i < j < |ds[1..]| ==> ds[1..][i] == ds[i + 1] && ds[1..][j] == ds[j + 1];
    assert ds == [ds[0]] + ds[1..];
    LinkSetConcat([ds[0]], ds[1..]);
  }

  lemma AddMoves(c: Lru, d: Delegation)
    requires c.Valid()
    ensures var moved := MoveToEnd(c.entries, d);
      c.Add(d) == Lru(c.capacity, if |moved| == c.capacity + 1 then moved[1..] else moved)
  {
    var rest := Without(c.entries, d.Link());
    if |rest| == c.capacity {
      assert (rest + [d])[1..] == rest[1..] + [d];
    }
  }

  /** An insertion evicts none of the entries in recent use, as long as the cache can
      hold them and the new one. */
  lemma AddKeeps(c: Lru, d: Delegation, used: set<Link>)
    requires c.Valid() && Recent(c, used) && |used + {d.Link()}| <= c.capacity
    ensures c.Add(d).Valid() && c.Add(d).capacity == c.capacity
    ensures c.Add(d).Keys() <= c.Keys() + {d.Link()}
    ensures Recent(c.Add(d), used + {d.Link()})
  {
    var n: nat :| n <= |c.entries| && LinkSet(c.entries[n..]) == used;
    var moved := MoveToEnd(c.entries, d);
    MovedEntries(c.entries, d);
    var m := MovedTail(c.entries, n, d);
    AddMoves(c, d);
    MovedFits(c.entries, d);
    Settled(c, moved, m, c.Add(d), used + {d.Link()});
  }

  lemma MovedFits(ds: seq<Delegation>, d: Delegation)
    ensures |MoveToEnd(ds, d)| <= |ds| + 1
  {
  }

  lemma Settled(c: Lru, moved: seq<Delegation>, m: nat, added: Lru, used: set<Link>)
    requires c.Valid() && NoRepeats(moved) && m < |moved| <= c.capacity + 1
    requires LinkSet(moved[m..]) == used && |used| <= c.capacity
    requires added == Lru(c.capacity, if |moved| == c.capacity + 1 then moved[1..] else moved)
    ensures added.Valid() && Recent(added, used) && LinkSet(added.entries) <= LinkSet(moved)
  {
    if |moved| == c.capacity + 1 {
      EvictKeeps(moved, m, used);
      assert LinkSet(added.entries[m - 1..]) == used;
    } else {
      assert LinkSet(added.entries[m..]) == used;
    }
  }

  lemma {:induction false} FindOnly(ds: seq<Delegation>, d: Delegation)
    requires NoRepeats(ds) && d in ds
    ensures Find(ds, d.Link()) == Some(d)
  {
    if ds[0] != d {
      var i :| 0 <= i < |ds| && ds[i] == d;
      assert ds[1..][i - 1] == d;
      assert forall j, k :: 0 <= j < k < |ds[1..]| ==> ds[1..][j] == ds[j + 1] && ds[1..][k] == ds[k + 1];
      FindOnly(ds[1..], d);
    }
  }

  /** What is put is found again, replacing what was there; whatever else is still cached
      is what it was. A hit changes nothing that is found. */
  lemma PutThenGet(c: Lru, d: Delegation, link: Link)
    requires c.Valid()
    ensures c.Add(d).Get(d.Link()) == Some(d)
    ensures link != d.Link() && link in c.Add(d).Keys() ==> c.Add(d).Get(link) == c.Get(link)
    ensures c.Touch(link).Get(d.Link()) == c.Get(d.Link())
  {
    AddKeepsAny(c, d);
    FindOnly(c.Add(d).entries, d);
    if link != d.Link() && link in c.Add(d).Keys() {
      var e := c.Add(d).Get(link).value;
      assert e in Without(c.entries, d.Link());
      FindOnly(c.entries, e);
    }
    TouchKeepsAny(c, link);
    if d.Link() in c.Keys() {
      var e := c.Get(d.Link()).value;
      assert e in c.Touch(link).entries by {
        if link == d.Link() {
          assert c.Touch(link).entries[|c.Touch(link).entries| - 1] == e;
        }
      }
      FindOnly(c.Touch(link).entries, e);
    }
  }

  lemma AddKeepsAny(c: Lru, d: Delegation)
    requires c.Valid()
    ensures c.Add(d).Valid() && d in c.Add(d).entries
  {
    assert LinkSet(c.entries[|c.entries|..]) == {};
    AddKeeps(c, d, {});
    assert c.Add(d).entries[|c.Add(d).entries| - 1] == d;
  }

  lemma TouchKeepsAny(c: Lru, link: Link)
    requires c.Valid()
    ensures c.Touch(link).Valid() && c.Touch(link).Keys() == c.Keys()
  {
    if link in c.Keys() {
      assert LinkSet(c.entries[|c.entries|..]) == {};
      TouchKeeps(c, link, {});
    }
  }

  lemma RecentAreKeys(c: Lru, used: set<Link>)
    requires Recent(c, used)
    ensures used <= c.Keys()
  {
    var n: nat :| n <= |c.entries| && LinkSet(c.entries[n..]) == used;
  }

  // ---- The cache object ----

  class MemoryDelegationCache {
    var data: Lru

    ghost predicate Valid()
      reads this
    {
      data.Valid()
    }

    /** A size below one stands for the default. */
    constructor (size: int)
      ensures Valid() && data.entries == []
      ensures data.capacity == if size <= 0 then MEMORY_DELEGATION_CACHE_SIZE else size
    {
      data := Lru(if size <= 0 then MEMORY_DELEGATION_CACHE_SIZE else size, []);
    }

    method Get(root: Link) returns (d: Option<Delegation>)
      requires Valid()
      modifies this
      ensures Valid() && data == old(data).Touch(root) && d == old(data).Get(root)
    {
      d := data.Get(root);
      ghost var before := data;
      if d.Some? {
        assert LinkSet(data.entries[|data.entries|..]) == {};
        TouchKeeps(data, root, {});
      }
      data := data.Touch(root);
    }

    method Put(d: Delegation)
      requires Valid()
      modifies this
      ensures Valid() && data == old(data).Add(d)
    {
      assert LinkSet(data.entries[|data.entries|..]) == {};
      AddKeeps(data, d, {});
      data := data.Add(d);
    }
  }
}
