/** Exactly when what pruning returns is minimal. */
module Minimality {
  import opened Graph
  import opened Capabilities
  import opened Validation
  import opened ProofTrees
  import opened SessionTrees
  import opened ProofOrder
  import opened Pruning
  import opened PruningTheorems
  import opened Embedding
  import opened ValidatorTheorems

  /** Some capability of `d` that is claimed may be issued by its issuer, without proofs. */
  ghost predicate SelfIssuable(desc: Descriptor, d: Delegation, ctx: Context) {
    exists cap, v {:trigger Owned(desc, d, cap, v, ctx)} :: Owned(desc, d, cap, v, ctx)
  }

  ghost predicate Owned(desc: Descriptor, d: Delegation, cap: Capability, v: Capability, ctx: Context) {
    cap in d.ucan.Capabilities() && Answer(desc, None, cap) == Ok(v) && ctx.canIssue(v, d.ucan.issuer)
  }

  // ---- One tree on a delegation by itself ----

  /** A delegation by itself is accepted as soon as one of its capabilities is owned. */
  lemma OwnedAccepted(desc: Descriptor, d: Delegation, cap: Capability, v: Capability, ctx: Context)
    requires Plain(ctx) && Owned(desc, d, cap, v, ctx) && ctx.timeBounds(d.ucan) == InTime && Signed(d, ctx)
    ensures Claim(desc, [Full(d)], ctx).Ok?
  {
    hide Claim, Signed, ProofPool;
    var a := Auth(Match(Source(cap, d), v), [], []);
    assert d in [d] && Accepted(false, d, [], [d], ctx);
    assert Valid(false, desc, None, a, [d], ctx);
    AcceptAgain(desc, d, a, ctx);
  }

  /** So is it when something proves one of them. */
  lemma ProvedAccepted(desc: Descriptor, d: Delegation, cap: Capability, v: Capability, below: Auth, ctx: Context)
    requires Plain(ctx) && ctx.timeBounds(d.ucan) == InTime && Signed(d, ctx)
    requires cap in d.ucan.Capabilities() && Answer(desc, None, cap) == Ok(v)
    requires Valid(false, desc, Some(v), below, ProofPool(d, ctx), ctx)
    ensures Claim(desc, [Full(d)], ctx).Ok?
  {
    hide Claim, Signed, ProofPool;
    var a := Auth(Match(Source(cap, d), v), [below], []);
    assert d in [d] && Accepted(false, d, [], [d], ctx);
    assert Valid(false, desc, None, a, [d], ctx);
    AcceptAgain(desc, d, a, ctx);
  }

  /** And in no other case. */
  lemma AcceptedHow(desc: Descriptor, d: Delegation, ctx: Context) returns (cap: Capability, v: Capability, below: Auth)
    requires Claim(desc, [Full(d)], ctx).Ok?
    ensures cap in d.ucan.Capabilities() && Answer(desc, None, cap) == Ok(v)
    ensures ctx.canIssue(v, d.ucan.issuer) || Valid(false, desc, Some(v), below, ProofPool(d, ctx), ctx)
  {
    hide Claim, Accepted, ProofPool;
    var a := Claim(desc, [Full(d)], ctx).value;
    AccessTree(desc, d, a, ctx);
    assert a.Delegation() in [d];
    cap, v := a.step.source.capability, a.Capability();
    below := if a.proofs == [] then a else a.proofs[0];
  }

  /** A draft that owns a claimed capability needs none of the proofs returned for it. */
  lemma OwnedDropsAll(desc: Descriptor, d: Delegation, kept: seq<Delegation>, i: nat, ctx: Context)
    requires Plain(ctx) && SelfIssuable(desc, d, ctx) && i < |kept|
    ensures Droppable(i, desc, d, kept, ctx)
  {
    hide Claim, Signed;
    var cap, v :| Owned(desc, d, cap, v, ctx);
    forall d' | Reissued(d, d', kept[..i] + kept[i + 1..], kept) && ctx.timeBounds(d'.ucan) == InTime && Signed(d', ctx)
      ensures Claim(desc, [Full(d')], ctx).Ok?
    {
      assert Owned(desc, d', cap, v, ctx);
      OwnedAccepted(desc, d', cap, v, ctx);
    }
  }

  // ---- Without sessions ----

  /** Everything below `d` is issued by a key or by the authority. */
  ghost predicate KeysOnly(root: Link, ctx: Context) {
    forall l :: Descends(root, l) && l.content.Token?
      ==> IsKey(l.content.ucan.issuer) || l.content.ucan.issuer == ctx.authority.did
  }

  ghost predicate Sessionless(a: Auth)
    decreases a
  {
    a.attestations == [] && forall i :: 0 <= i < |a.proofs| ==> Sessionless(a.proofs[i])
  }

  lemma {:induction false} NoSessions(checks: seq<Verdict>)
    requires forall i :: 0 <= i < |checks| && checks[i].Ok? ==> checks[i].value.None?
    ensures Sessions(checks) == []
  {
    if checks != [] {
      NoSessions(checks[..|checks| - 1]);
    }
  }

  lemma KeysNeedNone(root: Link, pool: seq<Delegation>, ctx: Context)
    requires KeysOnly(root, ctx) && forall p :: p in pool ==> Descends(root, p.Link())
    ensures Sessions(Checks(pool, ctx)) == []
  {
    forall i | 0 <= i < |pool|
      ensures Validate(pool[i], pool, ctx).Ok? ==> Validate(pool[i], pool, ctx).value.None?
    {
      assert pool[i] in pool && pool[i].Link().content.Token?;
      KeyAlone(pool[i], pool, ctx);
    }
    NoSessions(Checks(pool, ctx));
  }

  lemma KeyAlone(d: Delegation, pool: seq<Delegation>, ctx: Context)
    requires !NeedsSession(d, ctx)
    ensures Validate(d, pool, ctx).Ok? ==> Validate(d, pool, ctx).value.None?
  {
    hide VerifySession, VerifyResolvedKey;
  }

  lemma {:induction false} AuthorizeSessionless(desc: Descriptor, above: Match, root: Link, ctx: Context)
    requires KeysOnly(root, ctx) && Descends(root, above.source.delegation.Link()) && Authorize(desc, above, ctx).Ok?
    ensures Sessionless(Authorize(desc, above, ctx).value)
    decreases Rank(above.source.delegation.Link())
  {
    hide Authorize, Extend, Select, KeysOnly, Descends, Validate;
    var pool := ProofPool(above.source.delegation, ctx);
    forall p | p in pool
      ensures Descends(root, p.Link())
    {
      DescendsOn(root, above.source.delegation.Link(), p.Link());
    }
    KeysNeedNone(root, pool, ctx);
    var step := AuthorizePicks(desc, above, pool, ctx);
    StepsSound(desc, Some(above.value), step, pool, ctx);
    PoolRank(above.source.delegation, ctx);
    ExtendShape(desc, step, [], Authorize(desc, above, ctx).value, ctx);
    if !ctx.canIssue(step.value, step.source.delegation.ucan.issuer) {
      AuthorizeSessionless(desc, step, root, ctx);
    }
  }

  /** Then the tree of a draft has no sessions. */
  lemma ClaimSessionless(desc: Descriptor, d: Delegation, ctx: Context)
    requires KeysOnly(d.Link(), ctx) && Claim(desc, [Full(d)], ctx).Ok?
    ensures Sessionless(Claim(desc, [Full(d)], ctx).value)
  {
    hide Claim, Authorize, Extend, Select, KeysOnly, Validate;
    var a := Claim(desc, [Full(d)], ctx).value;
    ResolvedAsProofs([d], ctx);
    assert AsProofs([d]) == [Full(d)];
    ReachesSelf(d.Link(), {});
    KeysNeedNone(d.Link(), [d], ctx);
    var step := ClaimPicks(desc, [Full(d)], [d], ctx);
    StepsSound(desc, None, step, [d], ctx);
    ReviewKeeps(Extend(desc, step, [], ctx), a, ctx);
    ExtendShape(desc, step, [], a, ctx);
    if !ctx.canIssue(step.value, step.source.delegation.ucan.issuer) {
      AuthorizeSessionless(desc, step, d.Link(), ctx);
    }
  }

  /** What is returned for a draft that needs no proof. */
  lemma NoneKept(desc: Descriptor, d: Delegation, a: Auth, kept: seq<Delegation>, ctx: Context)
    requires Claim(desc, [Full(d)], ctx) == Ok(a) && PruneProofs(desc, d, ctx) == Ok(kept)
    requires Sessionless(a) && a.proofs == []
    ensures kept == []
  {
    hide Claim, PruneProofs;
    AccessTree(desc, d, a, ctx);
    assert a.Delegation() in [d];
    assert NodesOf([]) == [] && Nodes(a) == [d];
    if kept != [] {
      HeldNode(desc, d, a, kept, 0, ctx);
    }
  }

  lemma HeldNode(desc: Descriptor, d: Delegation, a: Auth, kept: seq<Delegation>, i: nat, ctx: Context)
    requires Claim(desc, [Full(d)], ctx) == Ok(a) && PruneProofs(desc, d, ctx) == Ok(kept) && i < |kept|
    ensures kept[i].Link() != d.Link() && exists n :: n in Nodes(a) && n.Link() == kept[i].Link()
  {
    PrunedKeeps(desc, d, a, kept, ctx, kept[i].Link());
    var k :| 0 <= k < |Nodes(a)| && Nodes(a)[k].Link() == kept[i].Link();
    assert Nodes(a)[k] in Nodes(a);
  }

  /** What is returned for a draft authorized by the first proof alone. */
  lemma OneKept(desc: Descriptor, d: Delegation, a: Auth, kept: seq<Delegation>, ctx: Context)
    requires Claim(desc, [Full(d)], ctx) == Ok(a) && PruneProofs(desc, d, ctx) == Ok(kept)
    requires Sessionless(a) && |a.proofs| == 1 && a.proofs[0].proofs == []
    ensures |kept| == 1
  {
    hide Claim, PruneProofs, Valid;
    AccessTree(desc, d, a, ctx);
    assert a.Delegation() in [d];
    var p := a.proofs[0].Delegation();
    assert NodesOf([]) == [] && Nodes(a.proofs[0]) == [p];
    assert NodesOf(a.proofs) == [p] && Nodes(a) == [d, p];
    ProofNodesKept(desc, d, a, kept, ctx, p);
    forall i | 0 <= i < |kept|
      ensures kept[i].Link() == p.Link()
    {
      HeldNode(desc, d, a, kept, i, ctx);
    }
    PrunedKeeps(desc, d, a, kept, ctx, p.Link());
    if |kept| > 1 {
      Repeated(kept, p.Link());
    }
  }

  lemma Repeated(ds: seq<Delegation>, l: Link)
    requires |ds| > 1 && forall i :: 0 <= i < |ds| ==> ds[i].Link() == l
    ensures !NoRepeats(ds)
  {
    assert ds[0].Link() == ds[1].Link();
  }

  /** What is returned for a longer chain has a member that can be dropped. */
  lemma LongerDrops(desc: Descriptor, d: Delegation, a: Auth, kept: seq<Delegation>, ctx: Context) returns (i: nat)
    requires Plain(ctx) && Claim(desc, [Full(d)], ctx) == Ok(a) && PruneProofs(desc, d, ctx) == Ok(kept)
    requires Sessionless(a) && |a.proofs| == 1 && a.proofs[0].proofs != []
    ensures i < |kept| && Droppable(i, desc, d, kept, ctx)
    ensures |kept| > 1
  {
    hide Claim, PruneProofs, Droppable, Valid, Grounded, Nodes, NodesOf, Sessionless;
    SessionlessLevel(a);
    AccessTree(desc, d, a, ctx);
    var p, q := a.proofs[0], a.proofs[0].proofs[0];
    LowerRank(desc, d, a, ctx);
    SelfInNodes(p);
    SelfInNodes(q);
    NodesOfHave(p.proofs, 0, q.Delegation());
    NodesOfHave(a.proofs, 0, q.Delegation());
    NodesOfHave(a.proofs, 0, p.Delegation());
    ProofNodesKept(desc, d, a, kept, ctx, q.Delegation());
    ProofNodesKept(desc, d, a, kept, ctx, p.Delegation());
    i :| 0 <= i < |kept| && kept[i].Link() == q.Delegation().Link();
    var j :| 0 <= j < |kept| && kept[j].Link() == p.Delegation().Link();
    DeeperIsDroppable(desc, d, a, kept, i, ctx);
  }

  lemma SelfInNodes(a: Auth)
    ensures a.Delegation() in Nodes(a)
    ensures forall n :: n in NodesOf(a.proofs) ==> n in Nodes(a)
  {
  }

  lemma SessionlessLevel(a: Auth)
    requires Sessionless(a) && |a.proofs| == 1
    ensures LevelOf(a.proofs) == [a.proofs[0].Delegation()]
  {
    assert LevelOf([]) == [] && Level(a.proofs[0]) == [a.proofs[0].Delegation()];
  }

  lemma LowerRank(desc: Descriptor, d: Delegation, a: Auth, ctx: Context)
    requires Valid(false, desc, None, a, [d], ctx) && |a.proofs| == 1 && a.proofs[0].proofs != []
    ensures a.proofs[0].proofs[0].Delegation().Link() != a.proofs[0].Delegation().Link()
  {
    hide Accepted;
    var p := a.proofs[0].Delegation();
    var q := a.proofs[0].proofs[0].Delegation();
    TreeFacts(false, desc, None, a, [d], ctx);
    TreeFacts(false, desc, Some(a.Capability()), a.proofs[0], ProofPool(a.Delegation(), ctx), ctx);
    assert q in ProofPool(p, ctx);
    PoolRank(p, ctx);
    RankInPool(q, ProofPool(p, ctx));
  }

  /** Without sessions, what pruning returns is minimal exactly when it is nothing, or a
      single proof of a draft that owns nothing it claims. */
  lemma MinimalIffOne(desc: Descriptor, d: Delegation, a: Auth, kept: seq<Delegation>, d0: Delegation, ctx: Context)
    requires Plain(ctx) && Claim(desc, [Full(d)], ctx) == Ok(a) && PruneProofs(desc, d, ctx) == Ok(kept)
      && Sessionless(a)
    requires Reissued(d, d0, [], kept) && ctx.timeBounds(d0.ucan) == InTime && Signed(d0, ctx)
    ensures (forall i :: 0 <= i < |kept| ==> !Droppable(i, desc, d, kept, ctx))
       <==> kept == [] || (|kept| == 1 && !SelfIssuable(desc, d, ctx))
  {
    hide Claim, PruneProofs, Valid, Droppable, SelfIssuable, Signed;
    AccessTree(desc, d, a, ctx);
    TreeFacts(false, desc, None, a, [d], ctx);
    if a.proofs == [] {
      NoneKept(desc, d, a, kept, ctx);
    } else if a.proofs[0].proofs == [] {
      OneKept(desc, d, a, kept, ctx);
      LastDropsIff(desc, d, kept, d0, ctx);
    } else {
      var i := LongerDrops(desc, d, a, kept, ctx);
    }
  }

  /** A single proof can be dropped exactly when the draft owns something it claims. */
  lemma LastDropsIff(desc: Descriptor, d: Delegation, kept: seq<Delegation>, d0: Delegation, ctx: Context)
    requires Plain(ctx) && |kept| == 1
    requires Reissued(d, d0, [], kept) && ctx.timeBounds(d0.ucan) == InTime && Signed(d0, ctx)
    ensures Droppable(0, desc, d, kept, ctx) <==> SelfIssuable(desc, d, ctx)
  {
    hide Claim, Signed;
    assert kept[..0] + kept[1..] == [];
    if SelfIssuable(desc, d, ctx) {
      OwnedDropsAll(desc, d, kept, 0, ctx);
    }
    if Droppable(0, desc, d, kept, ctx) {
      var cap, v, below := AcceptedHow(desc, d0, ctx);
      NothingCited(d0, ctx);
      assert Owned(desc, d, cap, v, ctx);
    }
  }

  lemma NothingCited(d: Delegation, ctx: Context)
    requires d.ucan.proofs == []
    ensures ProofPool(d, ctx) == []
  {
  }

  /** In terms of the draft alone: when keys or the authority issued everything below it,
      what pruning returns is minimal exactly when the first provable capability, in proof
      order, is the draft's own, or its first proof owns it and the draft owns nothing. */
  lemma MinimalIff(desc: Descriptor, d: Delegation, lead: Auth, kept: seq<Delegation>, d0: Delegation, ctx: Context)
    requires Plain(ctx) && KeysOnly(d.Link(), ctx) && PruneProofs(desc, d, ctx) == Ok(kept)
    requires First(desc, None, lead, [d], ctx) && Leads(desc, None, lead, [d], ctx)
    requires Reissued(d, d0, [], kept) && ctx.timeBounds(d0.ucan) == InTime && Signed(d0, ctx)
    ensures (forall i :: 0 <= i < |kept| ==> !Droppable(i, desc, d, kept, ctx))
       <==> |Steps(lead)| == 1 || (|Steps(lead)| == 2 && !SelfIssuable(desc, d, ctx))
  {
    hide Valid, First, Leads, Droppable, SelfIssuable, Signed, KeysOnly;
    var a := Claim(desc, [Full(d)], ctx).value;
    hide Claim;
    AccessTree(desc, d, a, ctx);
    ClaimSessionless(desc, d, ctx);
    ResolvedAsProofs([d], ctx);
    assert AsProofs([d]) == [Full(d)];
    FirstIsClaimed(desc, [Full(d)], lead, ctx);
    MinimalIffOne(desc, d, a, kept, d0, ctx);
    TreeFacts(false, desc, None, a, [d], ctx);
    if a.proofs == [] {
      NoneKept(desc, d, a, kept, ctx);
    } else if a.proofs[0].proofs == [] {
      OneKept(desc, d, a, kept, ctx);
    } else {
      var i := LongerDrops(desc, d, a, kept, ctx);
      assert |Steps(a.proofs[0])| >= 2;
    }
  }

  // ---- With sessions ----

  function AllBlocks(ds: seq<Delegation>): seq<Block> {
    if ds == [] then [] else AllBlocks(ds[..|ds| - 1]) + ds[|ds| - 1].blocks
  }

  lemma {:induction false} AllBlocksHas(ds: seq<Delegation>, b: Block)
    ensures b in AllBlocks(ds) <==> exists e :: e in ds && b in e.blocks
  {
    if ds != [] {
      var n := |ds| - 1;
      AllBlocksHas(ds[..n], b);
      assert ds == ds[..n] + [ds[n]];
    }
  }

  /** The members other than `i`. */
  function Without(i: nat, kept: seq<Delegation>): seq<Delegation>
    requires i < |kept|
  {
    kept[..i] + kept[i + 1..]
  }

  function RebasedAll(ds: seq<Delegation>, blocks: seq<Block>): (r: seq<Delegation>)
    ensures |r| == |ds| && forall i :: 0 <= i < |ds| ==> r[i] == Rebased(ds[i], blocks)
  {
    seq(|ds|, i requires 0 <= i < |ds| => Rebased(ds[i], blocks))
  }

  /** The members other than `i` that delegate to the draft's issuer, over all blocks kept. */
  function Remaining(i: nat, d: Delegation, kept: seq<Delegation>): (r: seq<Delegation>)
    requires i < |kept|
  {
    Aligned(d, RebasedAll(Without(i, kept), AllBlocks(kept)))
  }

  lemma RemainingHas(i: nat, d: Delegation, kept: seq<Delegation>, p: Delegation)
    requires i < |kept|
    ensures p in Remaining(i, d, kept) <==>
      && p.ucan.audience == d.ucan.issuer
      && exists e :: e in Without(i, kept) && p == Rebased(e, AllBlocks(kept))
  {
    var rest := Without(i, kept);
    var all := RebasedAll(rest, AllBlocks(kept));
    if p in all {
      var j :| 0 <= j < |all| && all[j] == p;
      assert rest[j] in rest;
    }
    if e :| e in rest && p == Rebased(e, AllBlocks(kept)) {
      var j :| 0 <= j < |rest| && rest[j] == e;
      assert all[j] == p;
    }
  }

  ghost predicate Unanswering(ctx: Context) {
    forall l :: ctx.ResolveProof(l).None?
  }

  /** The draft owns a capability it claims, or a tree over the other members proves one. */
  ghost predicate ProvableWithout(i: nat, desc: Descriptor, d: Delegation, kept: seq<Delegation>, ctx: Context)
    requires i < |kept|
  {
    exists cap, v :: ProvesWithout(i, desc, d, kept, cap, v, ctx)
  }

  ghost predicate ProvesWithout(i: nat, desc: Descriptor, d: Delegation, kept: seq<Delegation>, cap: Capability,
          v: Capability, ctx: Context)
    requires i < |kept|
  {
    && cap in d.ucan.Capabilities() && Answer(desc, None, cap) == Ok(v)
    && (ctx.canIssue(v, d.ucan.issuer) || Provable(desc, Some(v), Remaining(i, d, kept), ctx))
  }

  /** A delegation issued again without member `i` finds the others as rich as they were. */
  lemma RemainingCovered(i: nat, d: Delegation, d': Delegation, kept: seq<Delegation>, ctx: Context)
    requires Unanswering(ctx) && i < |kept| && Reissued(d, d', Without(i, kept), kept)
    requires forall e :: e in kept ==> Token(e.ucan) in e.blocks
    ensures Covered(Remaining(i, d, kept), ProofPool(d', ctx), ctx)
  {
    hide Richer, ProofPool, Remaining, AllBlocks;
    var rest := Without(i, kept);
    forall p | p in Remaining(i, d, kept)
      ensures exists p' :: p' in ProofPool(d', ctx) && AsRich(p, p', ctx)
    {
      RemainingHas(i, d, kept, p);
      var e :| e in rest && p == Rebased(e, AllBlocks(kept));
      MemberFound(i, d, d', kept, e, ctx);
      assert AsRich(p, Rebased(e, d'.blocks), ctx);
    }
  }

  lemma MemberFound(i: nat, d: Delegation, d': Delegation, kept: seq<Delegation>, e: Delegation, ctx: Context)
    requires Unanswering(ctx) && i < |kept| && Reissued(d, d', Without(i, kept), kept)
    requires forall e :: e in kept ==> Token(e.ucan) in e.blocks
    requires e in Without(i, kept) && e.ucan.audience == d.ucan.issuer
    ensures Rebased(e, d'.blocks) in ProofPool(d', ctx)
    ensures Richer(Rebased(e, AllBlocks(kept)), Rebased(e, d'.blocks), ctx)
  {
    hide Richer;
    var rest := Without(i, kept);
    var j :| 0 <= j < |rest| && rest[j] == e;
    assert Links(rest)[j] == e.Link() && e in kept;
    assert d'.Blocks() == d'.blocks;
    ProofPoolHas(d', e.Link(), ctx);
    var p, p' := Rebased(e, AllBlocks(kept)), Rebased(e, d'.blocks);
    assert p.Blocks() == AllBlocks(kept) && p'.Blocks() == d'.blocks;
    forall b | b in AllBlocks(kept)
      ensures b in d'.blocks
    {
      AllBlocksHas(kept, b);
    }
    ExtendsRicher(p, p', ctx);
  }

  /** A reissue that carries no other block cites nothing but the other members. */
  lemma RemainingOnly(i: nat, d: Delegation, d': Delegation, kept: seq<Delegation>, ctx: Context)
    requires Unanswering(ctx) && i < |kept| && Reissued(d, d', Without(i, kept), kept)
    requires d'.blocks == AllBlocks(kept)
    ensures forall p :: p in ProofPool(d', ctx) ==> p in Remaining(i, d, kept)
  {
    hide Remaining, ProofPool, AllBlocks;
    var rest := Without(i, kept);
    assert d'.Blocks() == d'.blocks;
    forall p | p in ProofPool(d', ctx)
      ensures p in Remaining(i, d, kept)
    {
      PoolIsUsable(d', p, ctx);
      var j :| 0 <= j < |rest| && Links(rest)[j] == p.Link();
      assert rest[j] in rest && p == Rebased(rest[j], AllBlocks(kept));
      RemainingHas(i, d, kept, p);
    }
  }

  lemma PrunedClaim(desc: Descriptor, d: Delegation, kept: seq<Delegation>, ctx: Context) returns (a: Auth)
    requires PruneProofs(desc, d, ctx) == Ok(kept)
    ensures Claim(desc, [Full(d)], ctx) == Ok(a)
  {
    hide Claim;
    a := Claim(desc, [Full(d)], ctx).value;
  }

  /** Member `i` of what pruning returns can be dropped exactly when a tree exists over the
      other members. `d0` is one such reissue, in time and signed. */
  lemma DroppableIff(i: nat, desc: Descriptor, d: Delegation, kept: seq<Delegation>, d0: Delegation, ctx: Context)
    requires Plain(ctx) && Unanswering(ctx) && PruneProofs(desc, d, ctx) == Ok(kept) && i < |kept|
    requires Reissued(d, d0, Without(i, kept), kept) && ctx.timeBounds(d0.ucan) == InTime && Signed(d0, ctx)
    ensures Droppable(i, desc, d, kept, ctx) <==> ProvableWithout(i, desc, d, kept, ctx)
  {
    hide PruneProofs, Droppable, ProvableWithout, Signed;
    var a := PrunedClaim(desc, d, kept, ctx);
    PrunedKeeps(desc, d, a, kept, ctx, d.Link());
    if ProvableWithout(i, desc, d, kept, ctx) {
      DropsWhenProvable(i, desc, d, kept, ctx);
    }
    if Droppable(i, desc, d, kept, ctx) {
      ProvableWhenDrops(i, desc, d, kept, d0, ctx);
    }
  }

  lemma DropsWhenProvable(i: nat, desc: Descriptor, d: Delegation, kept: seq<Delegation>, ctx: Context)
    requires Plain(ctx) && Unanswering(ctx) && i < |kept| && forall e :: e in kept ==> Token(e.ucan) in e.blocks
    requires ProvableWithout(i, desc, d, kept, ctx)
    ensures Droppable(i, desc, d, kept, ctx)
  {
    hide Claim, Signed, Valid, Remaining, Covered;
    var cap, v :| ProvesWithout(i, desc, d, kept, cap, v, ctx);
    forall d' | Reissued(d, d', Without(i, kept), kept) && ctx.timeBounds(d'.ucan) == InTime && Signed(d', ctx)
      ensures Claim(desc, [Full(d')], ctx).Ok?
    {
      if ctx.canIssue(v, d.ucan.issuer) {
        assert Owned(desc, d', cap, v, ctx);
        OwnedAccepted(desc, d', cap, v, ctx);
      } else {
        var b :| Valid(true, desc, Some(v), b, Remaining(i, d, kept), ctx);
        var strict := LooseToStrict(desc, Some(v), b, Remaining(i, d, kept), ctx);
        RemainingCovered(i, d, d', kept, ctx);
        var moved := TreeMoves(desc, Some(v), strict, Remaining(i, d, kept), ProofPool(d', ctx), ctx);
        ProvedAccepted(desc, d', cap, v, moved, ctx);
      }
    }
  }

  lemma ProvableWhenDrops(i: nat, desc: Descriptor, d: Delegation, kept: seq<Delegation>, d0: Delegation, ctx: Context)
    requires Plain(ctx) && Unanswering(ctx) && i < |kept| && forall e :: e in kept ==> Token(e.ucan) in e.blocks
    requires Reissued(d, d0, Without(i, kept), kept) && ctx.timeBounds(d0.ucan) == InTime && Signed(d0, ctx)
    requires Droppable(i, desc, d, kept, ctx)
    ensures ProvableWithout(i, desc, d, kept, ctx)
  {
    hide Claim, Signed, Valid, Remaining;
    var least := Delegation(d0.ucan, AllBlocks(kept), []);
    forall e, b | e in kept && b in e.blocks
      ensures b in AllBlocks(kept)
    {
      AllBlocksHas(kept, b);
    }
    SignedByToken(d0, least, ctx);
    assert Reissued(d, least, Without(i, kept), kept);
    var cap, v, below := AcceptedHow(desc, least, ctx);
    if !ctx.canIssue(v, d.ucan.issuer) {
      RemainingOnly(i, d, least, kept, ctx);
      ValidGrows(false, true, desc, Some(v), below, ProofPool(least, ctx), Remaining(i, d, kept), ctx);
    }
    assert ProvesWithout(i, desc, d, kept, cap, v, ctx);
  }
}
