/** What the pruned proofs carry: the blocks of their own chains and no others. */
module PruningBlocks {
  import opened Graph
  import opened Capabilities
  import opened Validation
  import opened Blockstore
  import opened Export
  import opened ProofTrees
  import opened ChainTheorems
  import opened Pruning
  import opened PruningTheorems
  import opened Embedding
  import opened Minimality

  // ---- Where a pruned proof comes from ----

  lemma {:induction false} CollectFrom(seen: seq<Delegation>, ds: seq<Delegation>, d: Delegation)
    requires d in Collect(seen, ds)
    ensures d in seen || d in ds
  {
    if ds != [] {
      var n := |ds| - 1;
      if d in Collect(seen, ds[..n]) {
        CollectFrom(seen, ds[..n], d);
      }
    }
  }

  /** `e` is `n` with the blocks it exports. */
  ghost predicate Exports(n: Delegation, e: Delegation) {
    && e.ucan == n.ucan && e.attached == []
    && forall b :: b in e.blocks <==> b in n.attached || Reaches(n.Link(), Cid(b), Open(n.blocks, []))
  }

  lemma ExportsItself(n: Delegation, s: seq<Block>)
    requires Exported(n, []) == Some(s)
    ensures Exports(n, Delegation(n.ucan, Distinct(s), []))
  {
    forall b
      ensures b in Distinct(s) <==> b in n.attached || Reaches(n.Link(), Cid(b), Open(n.blocks, []))
    {
      DistinctHas(s, b);
      ExportedCovers(n, [], b);
    }
  }

  lemma {:induction false} ReexportFrom(ds: seq<Delegation>, root: Link, e: Delegation) returns (n: Delegation)
    requires Reexport(ds, root).Ok? && e in Reexport(ds, root).value
    ensures n in ds && n.Link() != root && Exports(n, e)
  {
    hide Exports;
    var k := |ds| - 1;
    if e in Reexport(ds[..k], root).value {
      n := ReexportFrom(ds[..k], root, e);
    } else {
      n := ds[k];
      ExportsItself(n, Exported(n, []).value);
    }
  }

  lemma PrunedFrom(desc: Descriptor, d: Delegation, kept: seq<Delegation>, ctx: Context, e: Delegation)
      returns (n: Delegation)
    requires PruneProofs(desc, d, ctx) == Ok(kept) && e in kept
    ensures Claim(desc, [Full(d)], ctx).Ok? && n in Nodes(Claim(desc, [Full(d)], ctx).value)
    ensures n.Link() != d.Link() && Exports(n, e)
  {
    hide Exports, Claim, Nodes;
    var all := SelectProofs(desc, [Full(d)], ctx).value;
    n := ReexportFrom(all, d.Link(), e);
    CollectFrom([], Nodes(Claim(desc, [Full(d)], ctx).value), n);
  }

  // ---- The views of a tree ----

  /** A view with nothing attached, over the blocks of `d` if no resolver answers. */
  ghost predicate Clean(p: Delegation, d: Delegation, ctx: Context) {
    p.attached == [] && (Unanswering(ctx) ==> p.blocks == d.Blocks())
  }

  lemma CleanBelow(x: Delegation, d: Delegation, p: Delegation, ctx: Context)
    requires (x == d || Clean(x, d, ctx)) && p in ProofPool(x, ctx)
    ensures Clean(p, d, ctx)
  {
    PoolIsUsable(x, p, ctx);
    if x != d && Unanswering(ctx) {
      assert x.Blocks() == d.Blocks();
    }
  }

  lemma {:induction false} NodesClean(a: Auth, pool: seq<Delegation>, d: Delegation, n: Delegation, ctx: Context)
    requires Grounded(a, pool, ctx) && forall p :: p in pool ==> p == d || Clean(p, d, ctx)
    requires n in Nodes(a)
    ensures n == d || Clean(n, d, ctx)
    decreases a
  {
    hide Clean, ProofPool;
    if n in NodesOf(a.proofs) {
      var i := NodesOfFrom(a.proofs, n);
      var below := ProofPool(a.Delegation(), ctx);
      forall p | p in below
        ensures Clean(p, d, ctx)
      {
        CleanBelow(a.Delegation(), d, p, ctx);
      }
      NodesClean(a.proofs[i], below, d, n, ctx);
    } else if n in NodesOf(a.attestations) {
      var i := NodesOfFrom(a.attestations, n);
      NodesClean(a.attestations[i], pool, d, n, ctx);
    }
  }

  /** A pruned proof carries exactly the blocks reached from it through the view in which
      the search found it; nothing else of that view comes along. */
  lemma PrunedCarryChains(desc: Descriptor, d: Delegation, kept: seq<Delegation>, ctx: Context, e: Delegation)
      returns (n: Delegation)
    requires PruneProofs(desc, d, ctx) == Ok(kept) && e in kept
    ensures Claim(desc, [Full(d)], ctx).Ok? && n in Nodes(Claim(desc, [Full(d)], ctx).value)
    ensures n.ucan == e.ucan && e.attached == []
    ensures forall b :: b in e.blocks <==> Reaches(e.Link(), Cid(b), Open(n.blocks, []))
    ensures Unanswering(ctx) ==> n.blocks == d.Blocks()
  {
    hide PruneProofs, Claim, Nodes;
    n := PrunedFrom(desc, d, kept, ctx, e);
    var a := Claim(desc, [Full(d)], ctx).value;
    AccessTree(desc, d, a, ctx);
    NodesClean(a, [d], d, n, ctx);
  }

  /** Without a proof resolver, as pruning runs, that view is the draft's own: each pruned
      proof carries what is reached from it through the draft's blocks. */
  lemma PrunedCarryOwnBlocks(desc: Descriptor, d: Delegation, kept: seq<Delegation>, ctx: Context, e: Delegation,
          b: Block)
    requires Unanswering(ctx) && PruneProofs(desc, d, ctx) == Ok(kept) && e in kept
    ensures e.attached == []
    ensures b in e.blocks <==> Reaches(e.Link(), Cid(b), Open(d.Blocks(), []))
  {
    hide PruneProofs, Unanswering;
    var n := PrunedCarryChains(desc, d, kept, ctx, e);
  }

  // ---- Their order ----

  lemma {:induction false} CollectDistinct(ds: seq<Delegation>)
    requires NoRepeats(ds)
    ensures Collect([], ds) == ds
  {
    if ds != [] {
      var n := |ds| - 1;
      CollectDistinct(ds[..n]);
      assert ds == ds[..n] + [ds[n]];
      NoRepeatsSplit(ds);
    }
  }

  lemma {:induction false} CollectGrows(seen: seq<Delegation>, ds: seq<Delegation>, k: nat)
    requires k <= |ds|
    ensures Collect(seen, ds[..k]) <= Collect(seen, ds)
  {
    if k < |ds| {
      var n := |ds| - 1;
      assert ds[..n][..k] == ds[..k];
      CollectGrows(seen, ds[..n], k);
    } else {
      assert ds[..k] == ds;
    }
  }

  /** The draft comes first in a tree, then the proofs of its chain in order. */
  lemma {:induction false} ChainFirst(a: Auth, i: nat)
    requires i < |Chain(a)| && forall x :: x in Chain(a) ==> |x.proofs| <= 1
    ensures |Chain(a)| <= |Nodes(a)| && Nodes(a)[i] == Chain(a)[i].Delegation()
    decreases a
  {
    if a.proofs != [] {
      var p := a.proofs[0];
      assert forall x :: x in Chain(p) ==> x in Chain(a);
      assert a in Chain(a) && a.proofs == [p] && NodesOf([]) == [];
      assert NodesOf(a.proofs) == Nodes(p);
      ChainFirst(p, if i > 0 then i - 1 else 0);
    }
  }

  lemma {:induction false} ReexportLinks(ds: seq<Delegation>, root: Link, i: nat)
    requires Reexport(ds, root).Ok? && ds != [] && ds[0].Link() == root && NoRepeats(ds)
    ensures |Reexport(ds, root).value| + 1 == |ds|
    ensures i + 1 < |ds| ==> Reexport(ds, root).value[i].Link() == ds[i + 1].Link()
  {
    var n := |ds| - 1;
    if n > 0 {
      ReexportLinks(ds[..n], root, i);
    } else {
      assert Reexport(ds[..0], root) == Ok([]);
    }
  }

  /** Nothing is twice on a chain: every proof ranks below what cites it. */
  lemma {:induction false} ChainFalls(desc: Descriptor, chain: seq<Auth>, i: nat, j: nat)
    requires i < j < |chain| && forall k :: 0 <= k < |chain| - 1 ==> Delegates(desc, chain[k], chain[k + 1])
    ensures Rank(chain[j].Delegation().Link()) < Rank(chain[i].Delegation().Link())
    decreases j
  {
    RankBelowTop(chain[j - 1].Delegation().ucan.proofs, chain[j].Delegation().Link());
    if i < j - 1 {
      ChainFalls(desc, chain, i, j - 1);
    }
  }

  function DelegationsOf(chain: seq<Auth>): (r: seq<Delegation>)
    ensures |r| == |chain| && forall i :: 0 <= i < |r| ==> r[i] == chain[i].Delegation()
  {
    seq(|chain|, i requires 0 <= i < |chain| => chain[i].Delegation())
  }

  lemma ChainDistinct(desc: Descriptor, d: Delegation, a: Auth, ctx: Context)
    requires Claim(desc, [Full(d)], ctx) == Ok(a)
    ensures NoRepeats(DelegationsOf(Chain(a))) && Chain(a)[0].Delegation() == d
  {
    hide Claim, Chain;
    AccessSound(desc, d, a, ctx);
    var ds := DelegationsOf(Chain(a));
    forall i, j | 0 <= i < j < |ds|
      ensures ds[i].Link() != ds[j].Link()
    {
      ChainFalls(desc, Chain(a), i, j);
    }
  }

  lemma {:induction false} OneProofEach(a: Auth, pool: seq<Delegation>, claimed: Option<Capability>, desc: Descriptor,
          ctx: Context)
    requires Valid(false, desc, claimed, a, pool, ctx)
    ensures forall x :: x in Chain(a) ==> |x.proofs| <= 1
    decreases a
  {
    TreeFacts(false, desc, claimed, a, pool, ctx);
    if a.proofs != [] {
      OneProofEach(a.proofs[0], ProofPool(a.Delegation(), ctx), Some(a.Capability()), desc, ctx);
    }
  }

  lemma SelectedFirst(desc: Descriptor, d: Delegation, a: Auth, ctx: Context)
    requires Claim(desc, [Full(d)], ctx) == Ok(a)
    ensures DelegationsOf(Chain(a)) <= Collect([], Nodes(a)) && NoRepeats(Collect([], Nodes(a)))
  {
    hide Claim, Nodes, Valid;
    AccessTree(desc, d, a, ctx);
    OneProofEach(a, [d], None, desc, ctx);
    var ds := DelegationsOf(Chain(a));
    forall i | 0 <= i < |ds|
      ensures |ds| <= |Nodes(a)| && ds[i] == Nodes(a)[i]
    {
      ChainFirst(a, i);
    }
    assert Nodes(a)[..|ds|] == ds;
    ChainDistinct(desc, d, a, ctx);
    CollectDistinct(ds);
    CollectGrows([], Nodes(a), |ds|);
    CollectKeeps([], Nodes(a), d.Link());
  }

  /** The pruned proofs begin with those of the chain, from the draft's own down to the
      root of authority; those of sessions follow. */
  lemma PrunedInOrder(desc: Descriptor, d: Delegation, a: Auth, kept: seq<Delegation>, ctx: Context, i: nat)
    requires Claim(desc, [Full(d)], ctx) == Ok(a) && PruneProofs(desc, d, ctx) == Ok(kept)
    requires i + 1 < |Chain(a)|
    ensures i < |kept| && kept[i].Link() == Chain(a)[i + 1].Delegation().Link()
  {
    hide Claim, Nodes, Chain;
    SelectedFirst(desc, d, a, ctx);
    ChainDistinct(desc, d, a, ctx);
    ReexportLinks(Collect([], Nodes(a)), d.Link(), i);
  }

  // ---- When pruning fails ----

  /** `n` leads to a block that is not a token. */
  ghost predicate Spoiled(n: Delegation) {
    exists m: Link :: Reaches(n.Link(), m, Open(n.blocks, [])) && !m.content.Token?
  }

  lemma SpoiledIff(n: Delegation)
    ensures Spoiled(n) <==> Exported(n, []).None?
  {
    ExportedAround(n, []);
    ExportIff(n.Link(), n.blocks, []);
  }

  lemma {:induction false} ReexportFails(ds: seq<Delegation>, root: Link)
    ensures Reexport(ds, root).Err? <==> exists n :: n in ds && n.Link() != root && Spoiled(n)
    ensures Reexport(ds, root).Err? ==>
      Reexport(ds, root).error.NotExportable? && Spoiled(Reexport(ds, root).error.delegation)
  {
    hide Spoiled;
    if ds != [] {
      var k := |ds| - 1;
      assert ds == ds[..k] + [ds[k]];
      ReexportFails(ds[..k], root);
      SpoiledIff(ds[k]);
    }
  }

  /** A view in the tree of a draft is settled by its link when no resolver answers. */
  lemma OneView(desc: Descriptor, d: Delegation, n: Delegation, ctx: Context) returns (m: Delegation)
    requires Unanswering(ctx) && Claim(desc, [Full(d)], ctx).Ok?
    requires n in Nodes(Claim(desc, [Full(d)], ctx).value) && n.Link() != d.Link()
    ensures m == n && m in Collect([], Nodes(Claim(desc, [Full(d)], ctx).value))
  {
    hide Claim, Nodes, Collect;
    var a := Claim(desc, [Full(d)], ctx).value;
    var i :| 0 <= i < |Nodes(a)| && Nodes(a)[i] == n;
    CollectKeeps([], Nodes(a), n.Link());
    var all := Collect([], Nodes(a));
    var j :| 0 <= j < |all| && all[j].Link() == n.Link();
    m := all[j];
    CollectFrom([], Nodes(a), m);
    AccessTree(desc, d, a, ctx);
    NodesClean(a, [d], d, n, ctx);
    NodesClean(a, [d], d, m, ctx);
  }

  /** Without a resolver pruning succeeds exactly when the draft is accepted and none of
      the proofs used leads to a block that is no token. */
  lemma PrunesIff(desc: Descriptor, d: Delegation, ctx: Context)
    requires Unanswering(ctx)
    ensures PruneProofs(desc, d, ctx).Ok? <==>
      && Claim(desc, [Full(d)], ctx).Ok?
      && forall n :: n in Nodes(Claim(desc, [Full(d)], ctx).value) && n.Link() != d.Link() ==> !Spoiled(n)
  {
    hide Claim, Nodes, Collect, Spoiled, Unanswering;
    if Claim(desc, [Full(d)], ctx).Ok? {
      var a := Claim(desc, [Full(d)], ctx).value;
      ReexportFails(Collect([], Nodes(a)), d.Link());
      if n :| n in Collect([], Nodes(a)) && n.Link() != d.Link() && Spoiled(n) {
        CollectFrom([], Nodes(a), n);
      }
      if n :| n in Nodes(a) && n.Link() != d.Link() && Spoiled(n) {
        var m := OneView(desc, d, n, ctx);
      }
    }
  }

  /** It fails with the report of the draft's claim if that was refused, and with a proof
      that leads to such a block otherwise. */
  lemma PruningFailsWith(desc: Descriptor, d: Delegation, ctx: Context, e: PruneError)
    requires PruneProofs(desc, d, ctx) == Err(e)
    ensures e.Unprovable? <==> Claim(desc, [Full(d)], ctx).Err?
    ensures e.Unprovable? ==> e == Unprovable(Claim(desc, [Full(d)], ctx).error)
    ensures e.NotExportable? ==> Spoiled(e.delegation)
  {
    hide Claim, Nodes, Spoiled;
    if Claim(desc, [Full(d)], ctx).Ok? {
      ReexportFails(Collect([], Nodes(Claim(desc, [Full(d)], ctx).value)), d.Link());
    }
  }
}
