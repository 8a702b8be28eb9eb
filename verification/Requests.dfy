/** What a request does in detail: the order in which the server looks for proofs and
    asks for them, what stays in its cache, and what the extracted view holds. */
module Requests {
  import opened Graph
  import opened DelegationCache
  import opened Blockstore
  import opened Export
  import opened Extraction

  // ---- The order of the walk ----

  /** The links of a worklist that are at hand, or that are not, in order. */
  function Chosen(work: seq<Link>, open: set<Link>, atHand: bool): seq<Link> {
    if work == [] then []
    else (if (work[0] in open) == atHand then [work[0]] else []) + Chosen(work[1..], open, atHand)
  }

  /** The proofs of those at hand, in order. */
  function Below(work: seq<Link>, open: set<Link>): seq<Link> {
    if work == [] then []
    else (if work[0] in open then ProofsOf(work[0]) else []) + Below(work[1..], open)
  }

  lemma {:induction false} BelowLightens(work: seq<Link>, open: set<Link>)
    ensures Weights(Below(work, open)) <= Weights(work)
    ensures work != [] ==> Weights(Below(work, open)) < Weights(work)
  {
    if work != [] {
      BelowLightens(work[1..], open);
      var head := if work[0] in open then ProofsOf(work[0]) else [];
      WeightsConcat(head, Below(work[1..], open));
      assert Weight(work[0]) > Weights(head);
    }
  }

  /** What is visited and what is missed, level by level. */
  function Levels(work: seq<Link>, open: set<Link>): (seq<Link>, seq<Link>)
    decreases Weights(work)
  {
    if work == [] then ([], [])
    else
      BelowLightens(work, open);
      var later := Levels(Below(work, open), open);
      (Chosen(work, open, true) + later.0, Chosen(work, open, false) + later.1)
  }

  /** `w` is `r` after the links `seen` were visited and `missed` were not at hand. */
  ghost predicate Goes(w: Walk, seen: seq<Link>, missed: seq<Link>, r: Walk) {
    w.Walked? && r.Walked? && Links(w.seen) == seen + Links(r.seen) && w.missing == missed + r.missing
  }

  lemma GoesOn(w: Walk, s: seq<Link>, m: seq<Link>, r: Walk, s': seq<Link>, m': seq<Link>, r': Walk)
    requires Goes(w, s, m, r) && Goes(r, s', m', r')
    ensures Goes(w, s + s', m + m', r')
  {
    assert s + (s' + Links(r'.seen)) == (s + s') + Links(r'.seen);
    assert m + (m' + r'.missing) == (m + m') + r'.missing;
  }

  /** The first link of a worklist: visited, and its proofs put last, or missed. */
  lemma HeadGoes(work: seq<Link>, msg: seq<Block>, cache: Lru, next: Lru)
    requires work != [] && WalkFrom(work, msg, cache).Walked?
    requires next == if work[0].content in msg then cache else cache.Touch(work[0])
    ensures var open := AtHand(msg, cache); var h := work[0];
      if h in open then Goes(WalkFrom(work, msg, cache), [h], [], WalkFrom(work[1..] + ProofsOf(h), msg, next))
      else Goes(WalkFrom(work, msg, cache), [], [h], WalkFrom(work[1..], msg, cache))
  {
    var h := work[0];
    if h in AtHand(msg, cache) {
      var r := WalkFrom(work[1..] + ProofsOf(h), msg, next);
      var d := if h.content in msg then Delegation(h.content.ucan, msg, []) else cache.Get(h).value;
      assert Links([d] + r.seen) == [h] + Links(r.seen);
    }
  }

  /** One level of a worklist is worked off before the next. */
  lemma {:induction false} LevelGoes(a: seq<Link>, b: seq<Link>, msg: seq<Block>, cache: Lru) returns (cache': Lru)
    requires cache.Valid() && WalkFrom(a + b, msg, cache).Walked?
    ensures cache'.Valid() && cache'.Keys() == cache.Keys()
    ensures var open := AtHand(msg, cache);
      Goes(WalkFrom(a + b, msg, cache), Chosen(a, open, true), Chosen(a, open, false),
        WalkFrom(b + Below(a, open), msg, cache'))
    decreases |a|
  {
    hide WalkFrom, Goes, AtHand, Lru.Keys, Lru.Valid, Lru.Touch;
    var open := AtHand(msg, cache);
    if a == [] {
      assert a + b == b && b + Below(a, open) == b;
      NothingGoes(WalkFrom(b, msg, cache));
      cache' := cache;
    } else {
      var h, work := a[0], a + b;
      assert work[0] == h && work[1..] == a[1..] + b;
      var next := if h.content in msg then cache else cache.Touch(h);
      TouchSame(cache, h);
      HeadGoes(work, msg, cache, next);
      if h in open {
        assert work[1..] + ProofsOf(h) == a[1..] + (b + ProofsOf(h));
        GoesWalked(WalkFrom(work, msg, cache), [h], [], WalkFrom(work[1..] + ProofsOf(h), msg, next));
        cache' := LevelGoes(a[1..], b + ProofsOf(h), msg, next);
        KeysOpen(msg, cache, next);
        assert b + ProofsOf(h) + Below(a[1..], open) == b + Below(a, open);
        GoesOn(WalkFrom(work, msg, cache), [h], [], WalkFrom(work[1..] + ProofsOf(h), msg, next),
          Chosen(a[1..], open, true), Chosen(a[1..], open, false), WalkFrom(b + Below(a, open), msg, cache'));
      } else {
        GoesWalked(WalkFrom(work, msg, cache), [], [h], WalkFrom(work[1..], msg, cache));
        cache' := LevelGoes(a[1..], b, msg, cache);
        assert Below(a, open) == Below(a[1..], open) by {
          assert Below(a, open) == [] + Below(a[1..], open);
        }
        GoesOn(WalkFrom(work, msg, cache), [], [h], WalkFrom(work[1..], msg, cache),
          Chosen(a[1..], open, true), Chosen(a[1..], open, false), WalkFrom(b + Below(a, open), msg, cache'));
      }
    }
  }

  lemma NothingGoes(w: Walk)
    requires w.Walked?
    ensures Goes(w, [], [], w)
  {
    assert [] + Links(w.seen) == Links(w.seen);
  }

  lemma GoesWalked(w: Walk, s: seq<Link>, m: seq<Link>, r: Walk)
    requires Goes(w, s, m, r)
    ensures r.Walked?
  {
  }

  /** The walk is breadth first: it visits and misses links level by level, each as often
      as it is cited. */
  lemma {:induction false} WalksByLevels(work: seq<Link>, msg: seq<Block>, cache: Lru)
    requires cache.Valid() && WalkFrom(work, msg, cache).Walked?
    ensures var w := WalkFrom(work, msg, cache); (Links(w.seen), w.missing) == Levels(work, AtHand(msg, cache))
    decreases Weights(work)
  {
    if work == [] {
      assert Links([]) == [];
    } else {
      hide WalkFrom, AtHand, Lru.Keys, Lru.Valid;
      var open := AtHand(msg, cache);
      BelowLightens(work, open);
      assert work + [] == work && [] + Below(work, open) == Below(work, open);
      var cache' := LevelGoes(work, [], msg, cache);
      KeysOpen(msg, cache, cache');
      WalksByLevels(Below(work, open), msg, cache');
    }
  }

  lemma KeysOpen(msg: seq<Block>, cache: Lru, cache': Lru)
    requires cache'.Keys() == cache.Keys()
    ensures AtHand(msg, cache') == AtHand(msg, cache)
  {
  }

  /** A request that asks for proofs asks for all that is missing, level by level. */
  lemma AsksByLevels(root: Link, blocks: seq<Block>, cache: Lru)
    requires cache.Valid() && Extract(root, blocks, cache).0.MissingProofs?
    ensures Extract(root, blocks, cache).0.proofs == Levels([root], AtHand(blocks, cache)).1
  {
    var msg := Blockstore.Distinct(blocks);
    forall b
      ensures b in msg <==> b in blocks
    {
      DistinctHas(blocks, b);
    }
    assert AtHand(msg, cache) == AtHand(blocks, cache);
    WalksByLevels([root], msg, cache);
  }

  /** Only a request that asks for proofs adds to the cache. */
  lemma OthersAddNothing(root: Link, blocks: seq<Block>, cache: Lru)
    requires cache.Valid() && !Extract(root, blocks, cache).0.MissingProofs?
    ensures Extract(root, blocks, cache).1.Keys() == cache.Keys()
  {
    WalkKeepsKeys([root], Blockstore.Distinct(blocks), cache);
  }

  lemma {:induction false} WalkKeepsKeys(work: seq<Link>, msg: seq<Block>, cache: Lru)
    requires cache.Valid()
    ensures WalkFrom(work, msg, cache).cache.Keys() == cache.Keys()
    decreases Weights(work)
  {
    if work != [] {
      VisitLightens(work);
      var l, rest := work[0], work[1..];
      TouchSame(cache, l);
      if l.content in msg {
        if l.content.Token? {
          WalkKeepsKeys(rest + ProofsOf(l), msg, cache);
        }
      } else if l in cache.Keys() {
        WalkKeepsKeys(rest + ProofsOf(l), msg, cache.Touch(l));
      } else {
        WalkKeepsKeys(rest, msg, cache);
      }
    }
  }

  // ---- What the extracted view holds ----

  lemma TouchPermutes(cache: Lru, l: Link, e: Delegation)
    requires cache.Valid()
    ensures e in cache.Touch(l).entries <==> e in cache.entries
  {
    if l in cache.Keys() && e.Link() == l && e in cache.entries {
      FindOnly(cache.entries, e);
    }
  }

  /** What the walk visits is the message's view of a token, or what is cached for it. */
  lemma {:induction false} SeenAre(work: seq<Link>, msg: seq<Block>, cache: Lru, d: Delegation)
    requires cache.Valid() && WalkFrom(work, msg, cache).Walked? && d in WalkFrom(work, msg, cache).seen
    ensures if d.Link().content in msg then d == Delegation(d.ucan, msg, []) else d in cache.entries
    decreases Weights(work)
  {
    VisitLightens(work);
    var l, rest := work[0], work[1..];
    if l.content in msg {
      if d != Delegation(l.content.ucan, msg, []) {
        SeenAre(rest + ProofsOf(l), msg, cache, d);
      }
    } else if l in cache.Keys() {
      TouchSame(cache, l);
      TouchPermutes(cache, l, d);
      if d != cache.Get(l).value {
        SeenAre(rest + ProofsOf(l), msg, cache.Touch(l), d);
      }
    } else {
      SeenAre(rest, msg, cache, d);
    }
  }

  lemma {:induction false} ExportAllFrom(ds: seq<Delegation>, b: Block)
    requires ExportAll(ds).Some?
    ensures b in ExportAll(ds).value <==> exists d :: d in ds && Exported(d, []).Some? && b in Exported(d, []).value
    ensures forall d :: d in ds ==> Exported(d, []).Some?
  {
    if ds != [] {
      var n := |ds| - 1;
      assert ds == ds[..n] + [ds[n]];
      ExportAllFrom(ds[..n], b);
    }
  }

  lemma ReachedDescends(from: Link, to: Link, open: set<Link>)
    requires Reaches(from, to, open)
    ensures Descends(from, to)
  {
  }

  /** A cached delegation of the invocation, not in the message, has `b` attached. */
  ghost predicate CachedWith(root: Link, blocks: seq<Block>, cache: Lru, b: Block) {
    exists e :: e in cache.entries && Descends(root, e.Link()) && e.Link().content !in blocks && b in e.attached
  }

  /** The view of an extracted invocation holds exactly the blocks of the message, all
      that is below the invocation, and what is attached to the parts that were cached. */
  lemma ExtractedHolds(root: Link, blocks: seq<Block>, cache: Lru, b: Block)
    requires cache.Valid() && Extract(root, blocks, cache).0.Extracted?
    ensures var d := Extract(root, blocks, cache).0.invocation;
      && d.attached == []
      && (b in d.blocks <==> b in blocks || Descends(root, Cid(b)) || CachedWith(root, blocks, cache, b))
  {
    var msg := Blockstore.Distinct(blocks);
    var w := WalkFrom([root], msg, cache);
    var s := ExportAll(w.seen).value;
    ExtractIffComplete(root, blocks, cache);
    WalkComplete(root, msg, cache);
    hide WalkFrom, ExportAll, Exported, Descends;
    DistinctHas(blocks, b);
    StoredAllHas(msg, s, b);
    ExportAllFrom(w.seen, b);
    if d :| d in w.seen && Exported(d, []).Some? && b in Exported(d, []).value {
      assert d.Link() in LinkSet(w.seen);
      SeenAre([root], msg, cache, d);
      DistinctHas(blocks, d.Link().content);
      ExportedCovers(d, [], b);
      if b !in d.attached {
        ReachedDescends(d.Link(), Cid(b), Open(d.blocks, []));
        DescendsThrough(root, d.Link(), Cid(b));
      }
    }
    if e :| e in cache.entries && Descends(root, e.Link()) && e.Link().content !in blocks && b in e.attached {
      DistinctHas(blocks, e.Link().content);
      var d :| d in w.seen && d.Link() == e.Link();
      SeenAre([root], msg, cache, d);
      FindOnly(cache.entries, d);
      FindOnly(cache.entries, e);
      ExportedCovers(d, [], b);
    }
  }

  // ---- What stays in a cache that is too small ----

  lemma {:induction false} AddAllConcat(cache: Lru, a: seq<Delegation>, b: seq<Delegation>)
    ensures AddAll(cache, a + b) == AddAll(AddAll(cache, a), b)
  {
    if b == [] {
      assert a + b == a;
    } else {
      assert (a + b)[..|a + b| - 1] == a + b[..|b| - 1];
      AddAllConcat(cache, a, b[..|b| - 1]);
    }
  }

  lemma AddLast(cache: Lru, ds: seq<Delegation>, k: nat)
    requires cache.Valid() && k <= |ds| && |LinkSet(ds[k..])| <= cache.capacity
    ensures LinkSet(ds[k..]) <= AddAll(cache, ds).Keys()
  {
    hide AddAll, LinkSet, Lru.Keys, Lru.Valid, Recent;
    var before, links := AddAll(cache, ds[..k]), LinkSet(ds[k..]);
    AddAllValid(cache, ds[..k]);
    AddAllConcat(cache, ds[..k], ds[k..]);
    assert ds[..k] + ds[k..] == ds;
    NothingRecent(before);
    assert {} + links == links;
    AddAllKeeps(before, ds[k..], {});
    RecentAreKeys(AddAll(before, ds[k..]), links);
  }

  /** When not everything fits, what was met last stays: any rest of the walk that fits
      is in the cache afterwards. */
  lemma LastSurvive(root: Link, blocks: seq<Block>, cache: Lru, w: Walk, k: nat)
    requires cache.Valid() && Extract(root, blocks, cache).0.MissingProofs?
    requires w == WalkFrom([root], Blockstore.Distinct(blocks), cache)
    requires w.Walked? && k <= |w.added| && |LinkSet(w.added[k..])| <= cache.capacity
    ensures LinkSet(w.added[k..]) <= Extract(root, blocks, cache).1.Keys()
  {
    assert Extract(root, blocks, cache).1 == AddAll(w.cache, w.added);
    hide WalkFrom, Extract, AddAll, LinkSet, Lru.Keys, Lru.Valid;
    WalkKeepsValid([root], Blockstore.Distinct(blocks), cache);
    AddLast(w.cache, w.added, k);
  }
}
