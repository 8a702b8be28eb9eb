/** The server's side of a partitioned invocation (server/retrieval/server.go): it walks
    from the invocation through the message and the cache, and asks for what it misses. */
module Extraction {
  import opened Graph
  import opened DelegationCache
  import opened Blockstore
  import opened Export

  // ---- The walk ----

  /** One for a link and the weights of its proofs: the number of visits it can cause. */
  function Weight(l: Link): (r: nat)
    ensures r > 0
    decreases l
  {
    if l.content.Token? then 1 + Weights(l.content.ucan.proofs) else 1
  }

  function Weights(ls: seq<Link>): nat
    decreases ls
  {
    if ls == [] then 0 else Weight(ls[0]) + Weights(ls[1..])
  }

  lemma {:induction false} WeightsConcat(a: seq<Link>, b: seq<Link>)
    ensures Weights(a + b) == Weights(a) + Weights(b)
  {
    if a == [] {
      assert a + b == b;
    } else {
      assert (a + b)[1..] == a[1..] + b;
      WeightsConcat(a[1..], b);
    }
  }

  /** Replacing a link by its proofs makes a worklist lighter; so does dropping it. */
  lemma VisitLightens(work: seq<Link>)
    requires work != []
    ensures Weights(work[1..] + ProofsOf(work[0])) < Weights(work)
    ensures Weights(work[1..]) < Weights(work)
  {
    WeightsConcat(work[1..], ProofsOf(work[0]));
    assert Weight(work[0]) == 1 + Weights(ProofsOf(work[0]));
  }

  /** What a walk found: the delegations visited, those of them that the message
      brought, the links it could not follow, and the cache with its hits refreshed. */
  datatype Walk =
    | Walked(seen: seq<Delegation>, added: seq<Delegation>, missing: seq<Link>, cache: Lru)
    | Undecodable(link: Link, cache: Lru)

  function Visited(d: Delegation, isNew: bool, rest: Walk): Walk {
    match rest
    case Undecodable(_, _) => rest
    case Walked(s, f, m, c) => Walked([d] + s, if isNew then [d] + f else f, m, c)
  }

  /** Breadth first, without a record of what was visited already. */
  function WalkFrom(work: seq<Link>, msg: seq<Block>, cache: Lru): Walk
    decreases Weights(work)
  {
    if work == [] then Walked([], [], [], cache)
    else
      VisitLightens(work);
      var l, rest := work[0], work[1..];
      if l.content in msg then
        if !l.content.Token? then Undecodable(l, cache)
        else Visited(Delegation(l.content.ucan, msg, []), true, WalkFrom(rest + ProofsOf(l), msg, cache))
      else match cache.Get(l)
        case Some(d) => Visited(d, false, WalkFrom(rest + ProofsOf(l), msg, cache.Touch(l)))
        case None =>
          match WalkFrom(rest, msg, cache)
          case Undecodable(e, c) => Undecodable(e, c)
          case Walked(s, f, m, c) => Walked(s, f, [l] + m, c)
  }

  // ---- The request ----

  datatype Outcome = Extracted(invocation: Delegation) | MissingProofs(proofs: seq<Link>) | Failed

  function AddAll(cache: Lru, ds: seq<Delegation>): Lru {
    if ds == [] then cache else AddAll(cache, ds[..|ds| - 1]).Add(ds[|ds| - 1])
  }

  /** The exports of all the delegations, one after another. */
  function ExportAll(ds: seq<Delegation>): Option<seq<Block>> {
    if ds == [] then Some([])
    else
      match ExportAll(ds[..|ds| - 1])
      case None => None
      case Some(s) =>
        match Exported(ds[|ds| - 1], [])
        case None => None
        case Some(t) => Some(s + t)
  }

  function Extract(root: Link, blocks: seq<Block>, cache: Lru): (Outcome, Lru) {
    var msg := Blockstore.Distinct(blocks);
    match WalkFrom([root], msg, cache)
    case Undecodable(_, cache') => (Failed, cache')
    case Walked(seen, added, missing, cache') =>
      if missing != [] then (MissingProofs(missing), AddAll(cache', added))
      else
        match ExportAll(seen)
        case None => (Failed, cache')
        case Some(s) =>
          match View(root, StoredAll(msg, s))
          case None => (Failed, cache')
          case Some(d) => (Extracted(d), cache')
  }

  // ---- What the walk finds ----

  /** The links at hand: the message's blocks and the cache's keys. */
  function AtHand(msg: seq<Block>, cache: Lru): (r: set<Link>)
    ensures forall l :: l in r <==> l.content in msg || l in cache.Keys()
  {
    (set b | b in msg :: Cid(b)) + cache.Keys()
  }

  /** `l` can be reached from the worklist through links at hand, itself included. */
  ghost predicate Found(work: seq<Link>, l: Link, open: set<Link>) {
    exists w :: w in work && w in open && Reaches(w, l, open)
  }

  /** `l` is not at hand, but the worklist or something found asks for it. */
  ghost predicate Wanted(work: seq<Link>, l: Link, open: set<Link>) {
    l !in open && (l in work || exists q :: Found(work, q, open) && l in ProofsOf(q))
  }

  lemma FoundConcat(a: seq<Link>, b: seq<Link>, l: Link, open: set<Link>)
    ensures Found(a + b, l, open) <==> Found(a, l, open) || Found(b, l, open)
    ensures Wanted(a + b, l, open) <==> Wanted(a, l, open) || Wanted(b, l, open)
  {
    assert forall w :: w in a + b <==> w in a || w in b;
    assert forall q :: Found(a + b, q, open) <==> Found(a, q, open) || Found(b, q, open);
  }

  /** Visiting a link at hand finds it and whatever its proofs lead to. */
  lemma FoundHead(w: Link, l: Link, open: set<Link>)
    requires w in open
    ensures Found([w], l, open) <==> l == w || Found(ProofsOf(w), l, open)
    ensures Wanted([w], l, open) <==> Wanted(ProofsOf(w), l, open)
  {
    FoundOne(w, l, open);
    forall q | Found([w], q, open) && q != w
      ensures Found(ProofsOf(w), q, open)
    {
      FoundOne(w, q, open);
    }
    forall q | Found(ProofsOf(w), q, open)
      ensures Found([w], q, open)
    {
      FoundOne(w, q, open);
    }
  }

  lemma FoundOne(w: Link, l: Link, open: set<Link>)
    requires w in open
    ensures Found([w], l, open) <==> l == w || Found(ProofsOf(w), l, open)
    ensures Found([w], w, open)
  {
    ReachesSelf(w, open);
    assert w in [w];
    if Found([w], l, open) && l != w {
      assert Reaches(w, l, open);
      var next := ReachesSplit(w, l, open);
    }
    if p :| p in ProofsOf(w) && p in open && Reaches(p, l, open) {
      ReachesStep(w, p, l, open);
    }
  }

  /** A walk that is not stopped visits exactly what can be found, asks for exactly
      what is wanted, and leaves the same entries in the cache. */
  lemma {:induction false} WalkFinds(work: seq<Link>, msg: seq<Block>, cache: Lru, l: Link)
    requires cache.Valid() && WalkFrom(work, msg, cache).Walked?
    ensures var w := WalkFrom(work, msg, cache); var open := AtHand(msg, cache);
      && (l in LinkSet(w.seen) <==> Found(work, l, open))
      && (l in w.missing <==> Wanted(work, l, open))
      && (l in LinkSet(w.added) <==> Found(work, l, open) && l.content in msg)
    decreases Weights(work)
  {
    var open := AtHand(msg, cache);
    if work != [] {
      VisitLightens(work);
      var h, rest := work[0], work[1..];
      assert work == [h] + rest;
      FoundConcat([h], rest, l, open);
      if h in open {
        var cache' := if h.content in msg then cache else cache.Touch(h);
        TouchSame(cache, h);
        assert AtHand(msg, cache') == open;
        WalkFinds(rest + ProofsOf(h), msg, cache', l);
        FoundConcat(rest, ProofsOf(h), l, open);
        FoundHead(h, l, open);
        VisitLinks(work, msg, cache, l);
      } else {
        WalkFinds(rest, msg, cache, l);
        NotFound(h, l, open);
      }
    }
  }

  lemma NotFound(h: Link, l: Link, open: set<Link>)
    requires h !in open
    ensures !Found([h], l, open) && (Wanted([h], l, open) <==> l == h)
  {
  }

  lemma TouchSame(cache: Lru, l: Link)
    requires cache.Valid()
    ensures cache.Touch(l).Keys() == cache.Keys() && cache.Touch(l).Valid() && cache.Touch(l).capacity == cache.capacity
  {
    if l in cache.Keys() {
      assert LinkSet(cache.entries[|cache.entries|..]) == {};
      TouchKeeps(cache, l, {});
    }
  }

  /** One step of the walk, seen through links. */
  lemma VisitLinks(work: seq<Link>, msg: seq<Block>, cache: Lru, l: Link)
    requires work != [] && work[0] in AtHand(msg, cache) && WalkFrom(work, msg, cache).Walked?
    ensures var h := work[0]; var cache' := if h.content in msg then cache else cache.Touch(h);
      var w, r := WalkFrom(work, msg, cache), WalkFrom(work[1..] + ProofsOf(h), msg, cache');
      && r.Walked?
      && (l in LinkSet(w.seen) <==> l == h || l in LinkSet(r.seen))
      && (l in LinkSet(w.added) <==> (l == h && h.content in msg) || l in LinkSet(r.added))
      && w.missing == r.missing
  {
    var h := work[0];
    var cache' := if h.content in msg then cache else cache.Touch(h);
    var r := WalkFrom(work[1..] + ProofsOf(h), msg, cache');
    var d := if h.content in msg then Delegation(h.content.ucan, msg, []) else cache.Get(h).value;
    assert d.Link() == h;
    LinkSetConcat([d], r.seen);
    LinkSetConcat([d], r.added);
    assert LinkSet([d]) == {h};
  }

  // ---- When everything is at hand ----

  /** Undecodable blocks stop a walk exactly when they are found. */
  lemma {:induction false} WalkStops(work: seq<Link>, msg: seq<Block>, cache: Lru)
    requires cache.Valid()
    ensures WalkFrom(work, msg, cache).Undecodable?
       <==> exists l :: Found(work, l, AtHand(msg, cache)) && !l.content.Token?
    decreases Weights(work)
  {
    var open := AtHand(msg, cache);
    if work != [] {
      VisitLightens(work);
      var h, rest := work[0], work[1..];
      assert work == [h] + rest;
      forall l
        ensures Found(work, l, open) <==> Found([h], l, open) || Found(rest, l, open)
      {
        FoundConcat([h], rest, l, open);
      }
      if h in open {
        var cache' := if h.content in msg then cache else cache.Touch(h);
        TouchSame(cache, h);
        assert AtHand(msg, cache') == open;
        WalkStops(rest + ProofsOf(h), msg, cache');
        forall l
          ensures Found(work, l, open) <==> l == h || Found(rest + ProofsOf(h), l, open)
        {
          FoundHead(h, l, open);
          FoundConcat(rest, ProofsOf(h), l, open);
        }
      } else {
        WalkStops(rest, msg, cache);
        forall l
          ensures !Found([h], l, open)
        {
          NotFound(h, l, open);
        }
      }
    }
  }

  /** If nothing is wanted, everything below the root is found. */
  lemma FoundBelow(root: Link, l: Link, open: set<Link>)
    requires forall w :: !Wanted([root], w, open)
    requires Descends(root, l)
    ensures Found([root], l, open)
  {
    var any :| Reaches(root, l, any);
    var path :| Path(root, path, l, any);
    assert !Wanted([root], root, open) && root in [root];
    ReachesSelf(root, open);
    for i := 0 to |path|
      invariant i > 0 ==> Found([root], path[i - 1], open)
    {
      if i > 0 {
        assert Follows(path[i - 1], path[i], any);
        assert !Wanted([root], path[i], open);
        ReachesOn(root, path[i - 1], path[i], open);
      }
    }
  }

  lemma FoundDescends(root: Link, l: Link, open: set<Link>)
    requires Found([root], l, open)
    ensures Descends(root, l) && l in open
  {
    var path :| Path(root, path, l, open);
    assert |path| > 1 ==> Follows(path[|path| - 2], path[|path| - 1], open);
  }

  /** Tokens all the way down can always be exported. */
  lemma {:induction false} TokensExport(l: Link, blocks: seq<Block>, omit: seq<Link>)
    requires forall m :: Descends(l, m) ==> m.content.Token?
    ensures ExportLink(l, blocks, omit).Some?
    decreases l
  {
    ReachesSelf(l, {});
    forall p, m | p in ProofsOf(l) && Descends(p, m)
      ensures m.content.Token?
    {
      DescendsFrom(l, p, m);
    }
    ProofsExport(l.content.ucan.proofs, blocks, omit);
  }

  lemma {:induction false} ProofsExport(proofs: seq<Link>, blocks: seq<Block>, omit: seq<Link>)
    requires forall p, m :: p in proofs && Descends(p, m) ==> m.content.Token?
    ensures ExportProofs(proofs, blocks, omit).Some?
    decreases proofs
  {
    if proofs != [] {
      var n := |proofs| - 1;
      assert forall p :: p in proofs[..n] ==> p in proofs;
      ProofsExport(proofs[..n], blocks, omit);
      TokensExport(proofs[n], blocks, omit);
    }
  }

  lemma {:induction false} ExportAllHas(ds: seq<Delegation>)
    requires forall d :: d in ds ==> Exported(d, []).Some?
    ensures ExportAll(ds).Some?
    ensures forall d :: d in ds ==> Token(d.ucan) in ExportAll(ds).value
  {
    if ds != [] {
      var n := |ds| - 1;
      assert ds == ds[..n] + [ds[n]];
      ExportAllHas(ds[..n]);
    }
  }

  /** Everything below `root` is at hand and decodes to a token. */
  ghost predicate Complete(root: Link, open: set<Link>) {
    forall l :: Descends(root, l) ==> l in open && l.content.Token?
  }

  /** An invocation is extracted exactly when everything below it is at hand, and then
      its view holds every block below it. */
  lemma ExtractIffComplete(root: Link, blocks: seq<Block>, cache: Lru)
    requires cache.Valid()
    ensures Extract(root, blocks, cache).0.Extracted? <==> Complete(root, AtHand(blocks, cache))
    ensures Extract(root, blocks, cache).0.Extracted? ==>
      var d := Extract(root, blocks, cache).0.invocation;
      d.Link() == root && forall l :: Descends(root, l) ==> l.content in d.Blocks()
  {
    var msg := Blockstore.Distinct(blocks);
    forall b
      ensures b in msg <==> b in blocks
    {
      DistinctHas(blocks, b);
    }
    var open := AtHand(msg, cache);
    assert open == AtHand(blocks, cache);
    WalkStops([root], msg, cache);
    var w := WalkFrom([root], msg, cache);
    if w.Walked? && w.missing == [] {
      WalkComplete(root, msg, cache);
      SeenExports(root, w.seen, msg);
      ReachesSelf(root, {});
      assert Descends(root, root);
    } else if Complete(root, open) {
      CompleteWalks(root, msg, cache);
    }
  }

  lemma WalkComplete(root: Link, msg: seq<Block>, cache: Lru)
    requires cache.Valid() && WalkFrom([root], msg, cache).Walked? && WalkFrom([root], msg, cache).missing == []
    ensures Complete(root, AtHand(msg, cache))
    ensures forall l :: l in LinkSet(WalkFrom([root], msg, cache).seen) <==> Descends(root, l)
  {
    var w, open := WalkFrom([root], msg, cache), AtHand(msg, cache);
    forall l
      ensures !Wanted([root], l, open) && (l in LinkSet(w.seen) <==> Found([root], l, open))
    {
      WalkFinds([root], msg, cache, l);
    }
    forall l
      ensures Found([root], l, open) <==> Descends(root, l)
    {
      if Descends(root, l) {
        FoundBelow(root, l, open);
      }
      if Found([root], l, open) {
        FoundDescends(root, l, open);
      }
    }
    forall l | Descends(root, l)
      ensures l in open && l.content.Token?
    {
      FoundDescends(root, l, open);
      var d :| d in w.seen && d.Link() == l;
    }
  }

  lemma CompleteWalks(root: Link, msg: seq<Block>, cache: Lru)
    requires cache.Valid() && Complete(root, AtHand(msg, cache))
    ensures WalkFrom([root], msg, cache).Walked? && WalkFrom([root], msg, cache).missing == []
  {
    var open := AtHand(msg, cache);
    WalkStops([root], msg, cache);
    forall l | Found([root], l, open)
      ensures l.content.Token?
    {
      FoundDescends(root, l, open);
    }
    ReachesSelf(root, {});
    forall l
      ensures !Wanted([root], l, open)
    {
      if q :| Found([root], q, open) && l in ProofsOf(q) {
        FoundDescends(root, q, open);
        DescendsOn(root, q, l);
      }
    }
    var w := WalkFrom([root], msg, cache);
    if w.missing != [] {
      WalkFinds([root], msg, cache, w.missing[0]);
    }
  }

  lemma SeenExports(root: Link, seen: seq<Delegation>, msg: seq<Block>)
    requires forall l :: Descends(root, l) ==> l.content.Token?
    requires forall l :: l in LinkSet(seen) <==> Descends(root, l)
    ensures ExportAll(seen).Some?
    ensures forall l :: Descends(root, l) ==> l.content in StoredAll(msg, ExportAll(seen).value)
  {
    forall d | d in seen
      ensures Exported(d, []).Some?
    {
      assert d.Link() in LinkSet(seen);
      forall m | Descends(d.Link(), m)
        ensures m.content.Token?
      {
        DescendsThrough(root, d.Link(), m);
      }
      TokensExport(d.Link(), d.blocks, []);
    }
    ExportAllHas(seen);
    forall l | Descends(root, l)
      ensures l.content in StoredAll(msg, ExportAll(seen).value)
    {
      var d :| d in seen && d.Link() == l;
      StoredAllHas(msg, ExportAll(seen).value, l.content);
    }
  }

  // ---- What the walk leaves in the cache ----

  /** `c` has the entries of `cache`, with those of `used` most recent. */
  ghost predicate Refreshed(cache: Lru, c: Lru, used: set<Link>) {
    c.Valid() && c.Keys() == cache.Keys() && c.capacity == cache.capacity && Recent(c, used)
  }

  /** A walk only refreshes the cache, and what it found there becomes recent. */
  lemma {:induction false} WalkRefreshes(work: seq<Link>, msg: seq<Block>, cache: Lru, used: set<Link>)
    requires cache.Valid() && Recent(cache, used) && WalkFrom(work, msg, cache).Walked?
    ensures var w := WalkFrom(work, msg, cache); Refreshed(cache, w.cache, used + Hits(w.seen, msg))
    decreases Weights(work), 1
  {
    if work == [] {
      assert used + Hits([], msg) == used;
    } else {
      VisitLightens(work);
      var l, rest := work[0], work[1..];
      if l.content in msg {
        WalkRefreshes(rest + ProofsOf(l), msg, cache, used);
        HitsCons(Delegation(l.content.ucan, msg, []), WalkFrom(rest + ProofsOf(l), msg, cache).seen, msg);
      } else if l in cache.Keys() {
        WalkRefreshesHit(work, msg, cache, used);
      } else {
        WalkRefreshes(rest, msg, cache, used);
      }
    }
  }

  lemma {:induction false} WalkRefreshesHit(work: seq<Link>, msg: seq<Block>, cache: Lru, used: set<Link>)
    requires cache.Valid() && Recent(cache, used) && WalkFrom(work, msg, cache).Walked?
    requires work != [] && work[0].content !in msg && work[0] in cache.Keys()
    ensures var w := WalkFrom(work, msg, cache); Refreshed(cache, w.cache, used + Hits(w.seen, msg))
    decreases Weights(work), 0
  {
    VisitLightens(work);
    var l, rest := work[0], work[1..];
    var r := WalkFrom(rest + ProofsOf(l), msg, cache.Touch(l));
    TouchKeeps(cache, l, used);
    WalkRefreshes(rest + ProofsOf(l), msg, cache.Touch(l), used + {l});
    HitsCons(cache.Get(l).value, r.seen, msg);
    var hits := Hits(r.seen, msg);
    assert used + {l} + hits == used + (hits + {l});
    assert Refreshed(cache, r.cache, used + (hits + {l}));
  }

  lemma {:induction false} WalkKeepsValid(work: seq<Link>, msg: seq<Block>, cache: Lru)
    requires cache.Valid()
    ensures var c := WalkFrom(work, msg, cache).cache; c.Valid() && c.capacity == cache.capacity
    decreases Weights(work)
  {
    if work != [] {
      VisitLightens(work);
      var l, rest := work[0], work[1..];
      if l.content in msg {
        if l.content.Token? {
          WalkKeepsValid(rest + ProofsOf(l), msg, cache);
        }
      } else if l in cache.Keys() {
        TouchSame(cache, l);
        WalkKeepsValid(rest + ProofsOf(l), msg, cache.Touch(l));
      } else {
        WalkKeepsValid(rest, msg, cache);
      }
    }
  }

  /** The delegations visited that the message did not bring. */
  function Hits(seen: seq<Delegation>, msg: seq<Block>): set<Link> {
    set l | l in LinkSet(seen) && l.content !in msg
  }

  lemma HitsCons(d: Delegation, seen: seq<Delegation>, msg: seq<Block>)
    ensures Hits([d] + seen, msg) == Hits(seen, msg) + (if d.Link().content in msg then {} else {d.Link()})
  {
    LinkSetConcat([d], seen);
    assert LinkSet([d]) == {d.Link()};
  }

  lemma {:induction false} AddAllKeeps(cache: Lru, ds: seq<Delegation>, used: set<Link>)
    requires cache.Valid() && Recent(cache, used) && |used + LinkSet(ds)| <= cache.capacity
    ensures var c := AddAll(cache, ds);
      && c.Valid() && c.capacity == cache.capacity
      && c.Keys() <= cache.Keys() + LinkSet(ds) && Recent(c, used + LinkSet(ds))
  {
    hide Recent, LinkSet, Lru.Valid, Lru.Add, Lru.Keys;
    if ds == [] {
      NoLinks();
      assert used + LinkSet(ds) == used;
    } else {
      var n := |ds| - 1;
      var before := used + LinkSet(ds[..n]);
      LinkSetSnoc(ds[..n], ds[n]);
      assert ds == ds[..n] + [ds[n]];
      assert before + {ds[n].Link()} == used + LinkSet(ds);
      SubsetSize(before, used + LinkSet(ds));
      AddAllKeeps(cache, ds[..n], used);
      AddKeeps(AddAll(cache, ds[..n]), ds[n], before);
    }
  }

  lemma NoLinks()
    ensures LinkSet([]) == {}
  {
  }

  lemma LinkSetSnoc(ds: seq<Delegation>, d: Delegation)
    ensures LinkSet(ds + [d]) == LinkSet(ds) + {d.Link()}
  {
    LinkSetConcat(ds, [d]);
    assert LinkSet([d]) == {d.Link()};
  }

  lemma {:induction false} SubsetSize(a: set<Link>, b: set<Link>)
    requires a <= b
    ensures |a| <= |b|
  {
    if a != {} {
      var x :| x in a;
      SubsetSize(a - {x}, b - {x});
    }
  }

  lemma {:induction false} AddAllValid(cache: Lru, ds: seq<Delegation>)
    requires cache.Valid()
    ensures AddAll(cache, ds).Valid() && AddAll(cache, ds).capacity == cache.capacity
  {
    if ds != [] {
      AddAllValid(cache, ds[..|ds| - 1]);
      var c := AddAll(cache, ds[..|ds| - 1]);
      assert LinkSet(c.entries[|c.entries|..]) == {};
      AddKeeps(c, ds[|ds| - 1], {});
    }
  }

  lemma NothingRecent(cache: Lru)
    ensures Recent(cache, {})
  {
    assert LinkSet(cache.entries[|cache.entries|..]) == {};
  }

  lemma SeenSplits(work: seq<Link>, msg: seq<Block>, cache: Lru, w: Walk)
    requires cache.Valid() && w == WalkFrom(work, msg, cache) && w.Walked?
    ensures Hits(w.seen, msg) + LinkSet(w.added) == LinkSet(w.seen)
  {
    forall l
      ensures l in LinkSet(w.added) <==> l in LinkSet(w.seen) && l.content in msg
    {
      WalkFinds(work, msg, cache, l);
    }
  }

  lemma WalkThenAdd(work: seq<Link>, msg: seq<Block>, cache: Lru, w: Walk)
    requires cache.Valid() && w == WalkFrom(work, msg, cache) && w.Walked?
    requires |LinkSet(w.seen)| <= cache.capacity
    ensures var c := AddAll(w.cache, w.added);
      && c.Valid() && c.capacity == cache.capacity
      && LinkSet(w.seen) <= c.Keys() <= cache.Keys() + LinkSet(w.added)
  {
    var hits := Hits(w.seen, msg);
    NothingRecent(cache);
    WalkRefreshes(work, msg, cache, {});
    assert {} + hits == hits;
    SeenSplits(work, msg, cache, w);
    AddAllKeeps(w.cache, w.added, hits);
    RecentAreKeys(AddAll(w.cache, w.added), LinkSet(w.seen));
  }

  /** When proofs are missing, everything the walk visited is in the cache afterwards,
      provided it fits: eviction takes only what the walk did not touch. */
  lemma SeenSurvive(root: Link, blocks: seq<Block>, cache: Lru, w: Walk)
    requires cache.Valid() && Extract(root, blocks, cache).0.MissingProofs?
    requires w == WalkFrom([root], Blockstore.Distinct(blocks), cache) && |LinkSet(w.seen)| <= cache.capacity
    ensures var c := Extract(root, blocks, cache).1;
      && c.Valid() && c.capacity == cache.capacity
      && LinkSet(w.seen) <= c.Keys() <= cache.Keys() + LinkSet(w.added)
  {
    assert w.Walked? && Extract(root, blocks, cache).1 == AddAll(w.cache, w.added);
    WalkThenAdd([root], Blockstore.Distinct(blocks), cache, w);
  }

  lemma ExtractKeepsValid(root: Link, blocks: seq<Block>, cache: Lru)
    requires cache.Valid()
    ensures Extract(root, blocks, cache).1.Valid() && Extract(root, blocks, cache).1.capacity == cache.capacity
  {
    var w := WalkFrom([root], Blockstore.Distinct(blocks), cache);
    WalkKeepsValid([root], Blockstore.Distinct(blocks), cache);
    if w.Walked? {
      AddAllValid(w.cache, w.added);
    }
  }
}
