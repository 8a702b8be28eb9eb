/** Pruning is sufficient: a delegation that cites exactly the pruned proofs is
    accepted wherever the draft was. */
module PruningTheorems {
  import opened Graph
  import opened Capabilities
  import opened Validation
  import opened ProofTrees
  import opened Pruning

  // ---- Nodes ----

  lemma {:induction false} NodesOfHave(s: seq<Auth>, i: nat, n: Delegation)
    requires i < |s| && n in Nodes(s[i])
    ensures n in NodesOf(s)
  {
    if i > 0 {
      NodesOfHave(s[1..], i - 1, n);
    }
  }

  lemma {:induction false} NodesOfFrom(s: seq<Auth>, n: Delegation) returns (i: nat)
    requires n in NodesOf(s)
    ensures i < |s| && n in Nodes(s[i])
  {
    if n in Nodes(s[0]) {
      i := 0;
    } else {
      i := NodesOfFrom(s[1..], n);
      i := i + 1;
    }
  }

  lemma ProofNodesAreNodes(a: Auth, n: Delegation)
    requires n in NodesOf(a.proofs)
    ensures Holds(Nodes(a), n.Link())
  {
    assert n in [a.Delegation()] + NodesOf(a.proofs) + NodesOf(a.attestations);
    var i :| 0 <= i < |Nodes(a)| && Nodes(a)[i] == n;
  }

  /** The delegations of a tree that come of one pool: its own, and those of its sessions. */
  function Level(a: Auth): seq<Delegation>
    decreases a
  {
    [a.Delegation()] + LevelOf(a.attestations)
  }

  function LevelOf(s: seq<Auth>): seq<Delegation>
    decreases s
  {
    if s == [] then [] else Level(s[0]) + LevelOf(s[1..])
  }

  lemma {:induction false} LevelOfHave(s: seq<Auth>, i: nat, n: Delegation)
    requires i < |s| && n in Level(s[i])
    ensures n in LevelOf(s)
  {
    if i > 0 {
      LevelOfHave(s[1..], i - 1, n);
    }
  }

  lemma {:induction false} LevelOfFrom(s: seq<Auth>, n: Delegation) returns (i: nat)
    requires n in LevelOf(s)
    ensures i < |s| && n in Level(s[i])
  {
    if n in Level(s[0]) {
      i := 0;
    } else {
      i := LevelOfFrom(s[1..], n);
      i := i + 1;
    }
  }

  lemma {:induction false} LevelInNodes(a: Auth)
    ensures forall n :: n in Level(a) ==> n in Nodes(a)
    decreases a
  {
    forall n | n in LevelOf(a.attestations)
      ensures n in Nodes(a)
    {
      var i := LevelOfFrom(a.attestations, n);
      LevelInNodes(a.attestations[i]);
      NodesOfHave(a.attestations, i, n);
    }
  }

  // ---- Where the nodes come from ----

  /** Every delegation in the tree is in the pool of its level. */
  ghost predicate Grounded(a: Auth, pool: seq<Delegation>, ctx: Context)
    decreases a
  {
    && a.Delegation() in pool
    && (forall p :: p in a.proofs ==> Grounded(p, ProofPool(a.Delegation(), ctx), ctx))
    && (forall t :: t in a.attestations ==> Grounded(t, pool, ctx))
  }

  lemma {:induction false} GroundedGrows(a: Auth, pool: seq<Delegation>, pool': seq<Delegation>, ctx: Context)
    requires Grounded(a, pool, ctx) && forall p :: p in pool ==> p in pool'
    ensures Grounded(a, pool', ctx)
    decreases a
  {
    forall t | t in a.attestations
      ensures Grounded(t, pool', ctx)
    {
      GroundedGrows(t, pool, pool', ctx);
    }
  }

  lemma {:induction false} LevelInPool(a: Auth, pool: seq<Delegation>, ctx: Context)
    requires Grounded(a, pool, ctx)
    ensures forall n :: n in Level(a) ==> n in pool
    decreases a
  {
    forall n | n in LevelOf(a.attestations)
      ensures n in pool
    {
      var i := LevelOfFrom(a.attestations, n);
      LevelInPool(a.attestations[i], pool, ctx);
    }
  }

  lemma {:induction false} ClaimGrounded(desc: Descriptor, proofs: seq<Proof>, ctx: Context)
    requires Claim(desc, proofs, ctx).Ok?
    ensures Grounded(Claim(desc, proofs, ctx).value, Resolved(proofs, ctx), ctx)
    decreases Top(ProofLinks(proofs)), |proofs| + 1, 1
  {
    var pool := Resolved(proofs, ctx);
    var step := ClaimPicks(desc, proofs, pool, ctx);
    ResolvedRank(proofs, ctx);
    StepsSound(desc, None, step, pool, ctx);
    SessionsGrounded(pool, Checks(pool, ctx), ctx);
    ExtendGrounded(desc, step, Sessions(Checks(pool, ctx)), Claim(desc, proofs, ctx).value, pool, ctx);
  }

  lemma {:induction false} AuthorizeGrounded(desc: Descriptor, above: Match, ctx: Context)
    requires Authorize(desc, above, ctx).Ok?
    ensures Grounded(Authorize(desc, above, ctx).value, ProofPool(above.source.delegation, ctx), ctx)
    decreases Rank(above.source.delegation.Link()), 0, 1
  {
    var pool := ProofPool(above.source.delegation, ctx);
    var step := AuthorizePicks(desc, above, pool, ctx);
    PoolRank(above.source.delegation, ctx);
    StepsSound(desc, Some(above.value), step, pool, ctx);
    SessionsGrounded(pool, Checks(pool, ctx), ctx);
    ExtendGrounded(desc, step,
      AttestationsFor(step.source.delegation.Link(), Sessions(Checks(pool, ctx))),
      Authorize(desc, above, ctx).value, pool, ctx);
  }

  lemma {:induction false} ExtendGrounded(desc: Descriptor, step: Match, atts: seq<Auth>, a: Auth,
          pool: seq<Delegation>, ctx: Context)
    requires Extend(desc, step, atts, ctx) == Granted(a) && step.source.delegation in pool
    requires forall t :: t in atts ==> Grounded(t, pool, ctx)
    ensures Grounded(a, pool, ctx)
    decreases Rank(step.source.delegation.Link()), 0, 2
  {
    hide Grounded, ProofPool, Authorize, Rank;
    if ctx.canIssue(step.value, step.source.delegation.ucan.issuer) {
      GroundedNode(step, [], atts, pool, ctx);
    } else {
      AuthorizeGrounded(desc, step, ctx);
      GroundedNode(step, [Authorize(desc, step, ctx).value], atts, pool, ctx);
    }
  }

  lemma GroundedNode(step: Match, proofs: seq<Auth>, atts: seq<Auth>, pool: seq<Delegation>, ctx: Context)
    requires step.source.delegation in pool
    requires forall p :: p in proofs ==> Grounded(p, ProofPool(step.source.delegation, ctx), ctx)
    requires forall t :: t in atts ==> Grounded(t, pool, ctx)
    ensures Grounded(Auth(step, proofs, atts), pool, ctx)
  {
  }

  lemma {:induction false} SessionsGrounded(pool: seq<Delegation>, checks: seq<Verdict>, ctx: Context)
    requires checks == Checks(pool, ctx)
    ensures forall a :: a in Sessions(checks) ==> Grounded(a, pool, ctx)
    decreases Top(Links(pool)), |pool| + 1, 0
  {
    hide Validate, VerifySession, Grounded, Sessions;
    forall a | a in Sessions(checks)
      ensures Grounded(a, pool, ctx)
    {
      SessionsHas(checks, a);
      var i :| 0 <= i < |checks| && checks[i] == Ok(Some(a));
      assert pool[i] in pool;
      ValidateSession(pool[i], pool, ctx);
      SessionGrounded(pool[i], pool, ctx);
    }
  }

  lemma {:induction false} SessionGrounded(d: Delegation, pool: seq<Delegation>, ctx: Context)
    requires VerifySession(d, pool, ctx).Ok?
    ensures Grounded(VerifySession(d, pool, ctx).value, pool, ctx)
    decreases Top(Links(pool)), |Others(d, pool)| + 1, 2
  {
    var session := SessionPool(d, pool);
    SessionRank(d, pool);
    ClaimGrounded(AttestationOf(d.Link(), ctx), AsProofs(session), ctx);
    ResolvedAsProofs(session, ctx);
    GroundedGrows(VerifySession(d, pool, ctx).value, session, pool, ctx);
  }

  /** The nodes of a grounded tree are below its pool: they descend from whatever the
      pool descends from, and rank no higher than the pool does. */
  lemma {:induction false} GroundedNodes(a: Auth, pool: seq<Delegation>, ctx: Context, from: Link, n: Delegation)
    requires Grounded(a, pool, ctx) && n in Nodes(a)
    requires forall p :: p in pool ==> Descends(from, p.Link())
    ensures Descends(from, n.Link())
    ensures Rank(n.Link()) <= Top(Links(pool))
    decreases a
  {
    var d := a.Delegation();
    RankInPool(d, pool);
    if n in NodesOf(a.proofs) {
      var i := NodesOfFrom(a.proofs, n);
      var below := ProofPool(d, ctx);
      forall p | p in below
        ensures Descends(from, p.Link())
      {
        DescendsOn(from, d.Link(), p.Link());
      }
      GroundedNodes(a.proofs[i], below, ctx, from, n);
      PoolRank(d, ctx);
    } else if n in NodesOf(a.attestations) {
      var i := NodesOfFrom(a.attestations, n);
      GroundedNodes(a.attestations[i], pool, ctx, from, n);
    }
  }

  lemma RankInPool(d: Delegation, pool: seq<Delegation>)
    requires d in pool
    ensures Rank(d.Link()) <= Top(Links(pool))
  {
    var i :| 0 <= i < |pool| && pool[i] == d;
    assert Links(pool)[i] == d.Link();
    RankBelowTop(Links(pool), d.Link());
  }

  // ---- The same tree over another store ----

  function Rebased(d: Delegation, blocks: seq<Block>): Delegation {
    Delegation(d.ucan, blocks, [])
  }

  function Rebase(a: Auth, blocks: seq<Block>): Auth
    decreases a
  {
    Auth(
      Match(Source(a.step.source.capability, Rebased(a.Delegation(), blocks)), a.Capability()),
      RebaseAll(a.proofs, blocks),
      RebaseAll(a.attestations, blocks))
  }

  function RebaseAll(s: seq<Auth>, blocks: seq<Block>): (r: seq<Auth>)
    ensures |r| == |s| && forall i :: 0 <= i < |s| ==> r[i] == Rebase(s[i], blocks)
    decreases s
  {
    if s == [] then [] else [Rebase(s[0], blocks)] + RebaseAll(s[1..], blocks)
  }

  lemma ProofPoolHas(d: Delegation, link: Link, ctx: Context)
    requires link in d.ucan.proofs && View(link, d.Blocks()).Some?
    requires View(link, d.Blocks()).value.ucan.audience == d.ucan.issuer
    ensures View(link, d.Blocks()).value in ProofPool(d, ctx)
  {
    var i :| 0 <= i < |d.ucan.proofs| && d.ucan.proofs[i] == link;
    assert ProofsOfView(d)[i] == Full(View(link, d.Blocks()).value);
    assert ProofsOfView(d)[i] in ProofsOfView(d);
    ResolvedHas(ProofsOfView(d), ctx, View(link, d.Blocks()).value);
  }

  /** Where a pool's kept delegations are found again, over the new store. */
  ghost predicate Carried(pool: seq<Delegation>, kept: seq<Delegation>, blocks: seq<Block>, pool': seq<Delegation>) {
    forall p :: p in pool && Holds(kept, p.Link()) ==> Rebased(p, blocks) in pool'
  }

  lemma ProofPoolCarried(d: Delegation, d': Delegation, kept: seq<Delegation>, ctx: Context)
    requires d.ucan.issuer == d'.ucan.issuer && d'.attached == []
    requires forall l :: Holds(kept, l) ==> l.content in d'.blocks
    requires forall l :: Holds(kept, l) && l in d.ucan.proofs ==> l in d'.ucan.proofs
    ensures Carried(ProofPool(d, ctx), kept, d'.blocks, ProofPool(d', ctx))
  {
    forall p | p in ProofPool(d, ctx) && Holds(kept, p.Link())
      ensures Rebased(p, d'.blocks) in ProofPool(d', ctx)
    {
      assert d'.Blocks() == d'.blocks;
      ProofPoolHas(d', p.Link(), ctx);
    }
  }

  /** Moves a tree over another store. Of its pool only the first level has to be found
      again, in `direct`; whatever is cited further down is found in the store. */
  lemma {:induction false} RebaseValid(desc: Descriptor, claimed: Option<Capability>, a: Auth, pool: seq<Delegation>,
          ctx: Context, direct: seq<Delegation>, kept: seq<Delegation>, blocks: seq<Block>, pool': seq<Delegation>)
    requires Unrevoked(ctx) && Valid(false, desc, claimed, a, pool, ctx)
    requires forall n :: n in Level(a) ==> Holds(direct, n.Link())
    requires forall n :: n in Nodes(a) ==> Holds(kept, n.Link())
    requires forall l :: Holds(kept, l) ==> l.content in blocks
    requires Carried(pool, direct, blocks, pool')
    ensures Valid(false, desc, claimed, Rebase(a, blocks), pool', ctx)
    decreases a
  {
    var d := a.Delegation();
    var d' := Rebased(d, blocks);
    assert d in Level(a) && d' in pool';
    assert forall n :: n in LevelOf(a.attestations) ==> n in Level(a);
    assert forall n :: n in NodesOf(a.attestations) ==> n in Nodes(a);
    RebaseAccepted(d, a.attestations, pool, ctx, direct, kept, blocks, pool');
    if a.proofs != [] {
      RebaseBelow(desc, claimed, a, pool, ctx, kept, blocks);
    }
    RebasedTree(desc, claimed, a, pool, ctx, blocks, pool');
  }

  lemma {:induction false} RebaseBelow(desc: Descriptor, claimed: Option<Capability>, a: Auth, pool: seq<Delegation>,
          ctx: Context, kept: seq<Delegation>, blocks: seq<Block>)
    requires Unrevoked(ctx) && Valid(false, desc, claimed, a, pool, ctx) && a.proofs != []
    requires forall n :: n in Nodes(a) ==> Holds(kept, n.Link())
    requires forall l :: Holds(kept, l) ==> l.content in blocks
    ensures Valid(false, desc, Some(a.Capability()),
      Rebase(a.proofs[0], blocks), ProofPool(Rebased(a.Delegation(), blocks), ctx), ctx)
    decreases a, 0
  {
    var d, p := a.Delegation(), a.proofs[0];
    var d' := Rebased(d, blocks);
    forall n | n in Nodes(p)
      ensures Holds(kept, n.Link())
    {
      NodesOfHave(a.proofs, 0, n);
    }
    LevelInNodes(p);
    ProofPoolCarried(d, d', kept, ctx);
    RebaseValid(desc, Some(a.Capability()), p, ProofPool(d, ctx), ctx, kept, kept, blocks, ProofPool(d', ctx));
  }

  /** A node and what is below it, put together again. */
  lemma RebasedTree(desc: Descriptor, claimed: Option<Capability>, a: Auth, pool: seq<Delegation>, ctx: Context,
          blocks: seq<Block>, pool': seq<Delegation>)
    requires Unrevoked(ctx) && Valid(false, desc, claimed, a, pool, ctx) && Rebased(a.Delegation(), blocks) in pool'
    requires Accepted(false, Rebased(a.Delegation(), blocks), RebaseAll(a.attestations, blocks), pool', ctx)
    requires a.proofs != [] ==>
      Valid(false, desc, Some(a.Capability()),
        Rebase(a.proofs[0], blocks), ProofPool(Rebased(a.Delegation(), blocks), ctx), ctx)
    ensures Valid(false, desc, claimed, Rebase(a, blocks), pool', ctx)
  {
    hide Accepted, ProofPool, Answer;
  }

  lemma {:induction false} RebaseAccepted(d: Delegation, atts: seq<Auth>, pool: seq<Delegation>, ctx: Context,
          direct: seq<Delegation>, kept: seq<Delegation>, blocks: seq<Block>, pool': seq<Delegation>)
    requires Unrevoked(ctx) && Accepted(false, d, atts, pool, ctx)
    requires forall n :: n in LevelOf(atts) ==> Holds(direct, n.Link())
    requires forall n :: n in NodesOf(atts) ==> Holds(kept, n.Link())
    requires forall l :: Holds(kept, l) ==> l.content in blocks
    requires Carried(pool, direct, blocks, pool')
    ensures Accepted(false, Rebased(d, blocks), RebaseAll(atts, blocks), pool', ctx)
    decreases atts
  {
    var d' := Rebased(d, blocks);
    if Signed(d, ctx) {
      SignedByToken(d, d', ctx);
    } else {
      var i :| 0 <= i < |atts| && Valid(false, AttestationOf(d.Link(), ctx), None, atts[i], Scope(false, d, pool), ctx);
      forall n | n in Nodes(atts[i])
        ensures Holds(kept, n.Link())
      {
        NodesOfHave(atts, i, n);
      }
      forall n | n in Level(atts[i])
        ensures Holds(direct, n.Link())
      {
        LevelOfHave(atts, i, n);
      }
      RebaseValid(AttestationOf(d.Link(), ctx), None, atts[i], SessionPool(d, pool), ctx, direct, kept, blocks,
          SessionPool(d', pool'));
      assert RebaseAll(atts, blocks)[i] == Rebase(atts[i], blocks);
    }
  }

  // ---- Sufficiency ----

  /** `d'` is `d` issued again with exactly `direct` as its proofs, carrying the blocks of `kept`. */
  ghost predicate Reissued(d: Delegation, d': Delegation, direct: seq<Delegation>, kept: seq<Delegation>) {
    && d'.ucan.issuer == d.ucan.issuer && d'.ucan.Capabilities() == d.ucan.Capabilities()
    && d'.ucan.proofs == Links(direct)
    && d'.attached == [] && forall e, b :: e in kept && b in e.blocks ==> b in d'.blocks
  }

  /** Pruning keeps exactly the nodes of the authorization other than the draft. */
  lemma PrunedKeeps(desc: Descriptor, d: Delegation, a: Auth, kept: seq<Delegation>, ctx: Context, l: Link)
    requires Claim(desc, [Full(d)], ctx) == Ok(a) && PruneProofs(desc, d, ctx) == Ok(kept)
    ensures NoRepeats(kept)
    ensures Holds(kept, l) <==> Holds(Nodes(a), l) && l != d.Link()
    ensures forall e :: e in kept ==> Token(e.ucan) in e.blocks
  {
    var all := Collect([], Nodes(a));
    assert Reexport(all, d.Link()) == Ok(kept);
    CollectKeeps([], Nodes(a), l);
    ReexportKeeps(all, d.Link(), l);
  }

  lemma AccessTree(desc: Descriptor, d: Delegation, a: Auth, ctx: Context)
    requires Claim(desc, [Full(d)], ctx) == Ok(a)
    ensures Valid(false, desc, None, a, [d], ctx) && Grounded(a, [d], ctx)
  {
    ClaimSound(desc, [Full(d)], ctx);
    ClaimGrounded(desc, [Full(d)], ctx);
    assert Resolved([Full(d)], ctx) == [d];
  }

  lemma NodesDescend(d: Delegation, a: Auth, n: Delegation, ctx: Context)
    requires Grounded(a, [d], ctx) && n in Nodes(a)
    ensures Descends(d.Link(), n.Link())
  {
    ReachesSelf(d.Link(), {});
    GroundedNodes(a, [d], ctx, d.Link(), n);
  }

  lemma ProofNodesBelow(d: Delegation, a: Auth, n: Delegation, ctx: Context)
    requires Grounded(a, [d], ctx) && n in NodesOf(a.proofs)
    ensures n.Link() != d.Link()
  {
    assert a.Delegation() in [d];
    var k := NodesOfFrom(a.proofs, n);
    var below := ProofPool(d, ctx);
    forall p | p in below
      ensures Descends(d.Link(), p.Link())
    {
      ReachesSelf(d.Link(), {});
      DescendsOn(d.Link(), d.Link(), p.Link());
    }
    GroundedNodes(a.proofs[k], below, ctx, d.Link(), n);
    PoolRank(d, ctx);
  }

  /** What pruning returns: nothing twice, never the draft itself, and only
      delegations below it. */
  lemma PrunedAreProofs(desc: Descriptor, d: Delegation, kept: seq<Delegation>, ctx: Context, e: Delegation)
    requires PruneProofs(desc, d, ctx) == Ok(kept) && e in kept
    ensures NoRepeats(kept) && e.Link() != d.Link() && Descends(d.Link(), e.Link())
  {
    var a := Claim(desc, [Full(d)], ctx).value;
    var j :| 0 <= j < |kept| && kept[j] == e;
    PrunedKeeps(desc, d, a, kept, ctx, e.Link());
    var i :| 0 <= i < |Nodes(a)| && Nodes(a)[i].Link() == e.Link();
    AccessTree(desc, d, a, ctx);
    NodesDescend(d, a, Nodes(a)[i], ctx);
  }

  /** The tree of the draft, moved to the delegation issued again. */
  lemma TreeSurvives(desc: Descriptor, d: Delegation, d': Delegation, a: Auth, direct: seq<Delegation>,
          kept: seq<Delegation>, ctx: Context)
      returns (a': Auth)
    requires Unrevoked(ctx) && Valid(false, desc, None, a, [d], ctx) && Reissued(d, d', direct, kept)
    requires forall n :: n in LevelOf(a.proofs) ==> Holds(direct, n.Link())
    requires forall n :: n in NodesOf(a.proofs) ==> Holds(kept, n.Link())
    requires forall e :: e in kept ==> Token(e.ucan) in e.blocks
    requires forall e :: e in direct ==> e in kept
    requires ctx.timeBounds(d'.ucan) == InTime && Signed(d', ctx)
    ensures Valid(false, desc, None, a', [d'], ctx)
  {
    hide Signed, ProofPool;
    assert a.Delegation() in [d];
    KeptCarried(d, d', direct, kept, ctx);
    var proofs := RebaseAll(a.proofs, d'.blocks);
    if a.proofs != [] {
      forall n | n in Nodes(a.proofs[0])
        ensures Holds(kept, n.Link())
      {
        NodesOfHave(a.proofs, 0, n);
      }
      forall n | n in Level(a.proofs[0])
        ensures Holds(direct, n.Link())
      {
        LevelOfHave(a.proofs, 0, n);
      }
      RebaseValid(desc, Some(a.Capability()), a.proofs[0], ProofPool(d, ctx), ctx, direct, kept, d'.blocks,
          ProofPool(d', ctx));
    }
    a' := Auth(Match(Source(a.step.source.capability, d'), a.Capability()), proofs, []);
    assert d' in [d'];
  }

  lemma KeptCarried(d: Delegation, d': Delegation, direct: seq<Delegation>, kept: seq<Delegation>, ctx: Context)
    requires Reissued(d, d', direct, kept) && forall e :: e in kept ==> Token(e.ucan) in e.blocks
    requires forall e :: e in direct ==> e in kept
    ensures forall l :: Holds(kept, l) ==> l.content in d'.blocks
    ensures Carried(ProofPool(d, ctx), direct, d'.blocks, ProofPool(d', ctx))
  {
    forall l | Holds(kept, l)
      ensures l.content in d'.blocks
    {
      var i :| 0 <= i < |kept| && kept[i].Link() == l;
      assert kept[i] in kept;
    }
    forall l | Holds(direct, l)
      ensures l.content in d'.blocks && l in d'.ucan.proofs
    {
      var i :| 0 <= i < |direct| && direct[i].Link() == l;
      assert direct[i] in direct && Links(direct)[i] == l;
      var e := direct[i];
      assert e in kept && Token(e.ucan) in e.blocks;
    }
    ProofPoolCarried(d, d', direct, ctx);
  }

  /** Pruning loses nothing that matters: with nothing revoked and no DID key
      resolution, the delegation issued again with just the pruned proofs is accepted,
      unless it is itself out of its time bounds or badly signed. */
  lemma PruningSuffices(desc: Descriptor, d: Delegation, d': Delegation, kept: seq<Delegation>, ctx: Context)
    requires Plain(ctx) && PruneProofs(desc, d, ctx) == Ok(kept) && Reissued(d, d', kept, kept)
    ensures Claim(desc, [Full(d')], ctx).Ok? <==> ctx.timeBounds(d'.ucan) == InTime && Signed(d', ctx)
  {
    AlignedSuffice(desc, d, d', kept, kept, ctx);
  }

  /** Fewer will do: of the pruned proofs only those delegated to the draft's issuer have
      to be cited, if the blocks of all of them are carried. */
  lemma AlignedSuffice(desc: Descriptor, d: Delegation, d': Delegation, direct: seq<Delegation>,
          kept: seq<Delegation>, ctx: Context)
    requires Plain(ctx) && PruneProofs(desc, d, ctx) == Ok(kept) && Reissued(d, d', direct, kept)
    requires forall e :: e in direct ==> e in kept
    requires forall e :: e in kept && e.ucan.audience == d.ucan.issuer ==> e in direct
    ensures Claim(desc, [Full(d')], ctx).Ok? <==> ctx.timeBounds(d'.ucan) == InTime && Signed(d', ctx)
  {
    var a := Claim(desc, [Full(d)], ctx).value;
    forall n | n in LevelOf(a.proofs)
      ensures Holds(direct, n.Link())
    {
      LevelDirect(desc, d, a, direct, kept, ctx, n);
    }
    FirstLevelSuffices(desc, d, d', a, direct, kept, ctx);
  }

  /** Fewer still: only the first level of the tree has to be cited. */
  lemma FirstLevelSuffices(desc: Descriptor, d: Delegation, d': Delegation, a: Auth, direct: seq<Delegation>,
          kept: seq<Delegation>, ctx: Context)
    requires Plain(ctx) && Claim(desc, [Full(d)], ctx) == Ok(a) && PruneProofs(desc, d, ctx) == Ok(kept)
    requires Reissued(d, d', direct, kept) && forall e :: e in direct ==> e in kept
    requires forall n :: n in LevelOf(a.proofs) ==> Holds(direct, n.Link())
    ensures Claim(desc, [Full(d')], ctx).Ok? <==> ctx.timeBounds(d'.ucan) == InTime && Signed(d', ctx)
  {
    if ctx.timeBounds(d'.ucan) == InTime && Signed(d', ctx) {
      ReissuedAccepted(desc, d, d', a, direct, kept, ctx);
    }
    if Claim(desc, [Full(d')], ctx).Ok? {
      AloneIsSigned(desc, d', ctx);
    }
  }

  /** The first level below the draft is delegated to its issuer. */
  lemma LevelAligned(d: Delegation, a: Auth, ctx: Context, n: Delegation)
    requires Grounded(a, [d], ctx) && n in LevelOf(a.proofs)
    ensures n in ProofPool(d, ctx) && n.ucan.audience == d.ucan.issuer && n in NodesOf(a.proofs)
  {
    assert a.Delegation() in [d];
    var i := LevelOfFrom(a.proofs, n);
    LevelInPool(a.proofs[i], ProofPool(d, ctx), ctx);
    LevelInNodes(a.proofs[i]);
    NodesOfHave(a.proofs, i, n);
  }

  lemma LevelDirect(desc: Descriptor, d: Delegation, a: Auth, direct: seq<Delegation>, kept: seq<Delegation>,
          ctx: Context, n: Delegation)
    requires Claim(desc, [Full(d)], ctx) == Ok(a) && PruneProofs(desc, d, ctx) == Ok(kept) && n in LevelOf(a.proofs)
    requires forall e :: e in kept && e.ucan.audience == d.ucan.issuer ==> e in direct
    ensures Holds(direct, n.Link())
  {
    AccessTree(desc, d, a, ctx);
    LevelAligned(d, a, ctx, n);
    ProofNodesKept(desc, d, a, kept, ctx, n);
    var i :| 0 <= i < |kept| && kept[i].Link() == n.Link();
    assert kept[i] in kept;
    var j :| 0 <= j < |direct| && direct[j] == kept[i];
  }

  // ---- When what is returned can be minimal ----

  /** Member `i` of the pruned proofs need not be cited. */
  ghost predicate Droppable(i: nat, desc: Descriptor, d: Delegation, kept: seq<Delegation>, ctx: Context)
    requires i < |kept|
  {
    forall d' ::
      Reissued(d, d', kept[..i] + kept[i + 1..], kept) && ctx.timeBounds(d'.ucan) == InTime && Signed(d', ctx)
      ==> Claim(desc, [Full(d')], ctx).Ok?
  }

  /** Whatever is not on the first level of the tree can be dropped; in particular
      whatever is not delegated to the draft's issuer. */
  lemma DeeperIsDroppable(desc: Descriptor, d: Delegation, a: Auth, kept: seq<Delegation>, i: nat, ctx: Context)
    requires Plain(ctx) && Claim(desc, [Full(d)], ctx) == Ok(a) && PruneProofs(desc, d, ctx) == Ok(kept) && i < |kept|
    requires !Holds(LevelOf(a.proofs), kept[i].Link())
    ensures Droppable(i, desc, d, kept, ctx)
  {
    hide Claim, PruneProofs, Valid, Grounded, Signed;
    var direct := kept[..i] + kept[i + 1..];
    AccessTree(desc, d, a, ctx);
    forall n | n in LevelOf(a.proofs)
      ensures Holds(direct, n.Link())
    {
      LevelAligned(d, a, ctx, n);
      ProofNodesKept(desc, d, a, kept, ctx, n);
      HeldElsewhere(kept, i, LevelOf(a.proofs), n);
    }
    forall d' | Reissued(d, d', direct, kept) && ctx.timeBounds(d'.ucan) == InTime && Signed(d', ctx)
      ensures Claim(desc, [Full(d')], ctx).Ok?
    {
      FirstLevelSuffices(desc, d, d', a, direct, kept, ctx);
    }
  }

  lemma HeldElsewhere(kept: seq<Delegation>, i: nat, level: seq<Delegation>, n: Delegation)
    requires i < |kept| && !Holds(level, kept[i].Link()) && n in level && Holds(kept, n.Link())
    ensures Holds(kept[..i] + kept[i + 1..], n.Link())
  {
    var direct := kept[..i] + kept[i + 1..];
    var k :| 0 <= k < |kept| && kept[k].Link() == n.Link();
    var m :| 0 <= m < |level| && level[m] == n;
    assert k != i;
    assert direct[if k < i then k else k - 1] == kept[k];
  }

  /** The set returned can be minimal only if it is a single level: each member on the
      first level of the tree, and so delegated to the draft's issuer. */
  lemma MinimalOnlyIf(desc: Descriptor, d: Delegation, a: Auth, kept: seq<Delegation>, ctx: Context)
    requires Plain(ctx) && Claim(desc, [Full(d)], ctx) == Ok(a) && PruneProofs(desc, d, ctx) == Ok(kept)
    requires forall i :: 0 <= i < |kept| ==> !Droppable(i, desc, d, kept, ctx)
    ensures forall e :: e in kept ==> Holds(LevelOf(a.proofs), e.Link()) && e.ucan.audience == d.ucan.issuer
  {
    forall e | e in kept
      ensures Holds(LevelOf(a.proofs), e.Link()) && e.ucan.audience == d.ucan.issuer
    {
      var i :| 0 <= i < |kept| && kept[i] == e;
      if !Holds(LevelOf(a.proofs), e.Link()) {
        DeeperIsDroppable(desc, d, a, kept, i, ctx);
      }
      var k :| 0 <= k < |LevelOf(a.proofs)| && LevelOf(a.proofs)[k].Link() == e.Link();
      AccessTree(desc, d, a, ctx);
      LevelAligned(d, a, ctx, LevelOf(a.proofs)[k]);
    }
  }

  /** On its own, a delegation has no session to be accepted through. */
  lemma AloneIsSigned(desc: Descriptor, d: Delegation, ctx: Context)
    requires Claim(desc, [Full(d)], ctx).Ok?
    ensures ctx.timeBounds(d.ucan) == InTime && Signed(d, ctx)
  {
    hide Claim, Signed;
    var a := Claim(desc, [Full(d)], ctx).value;
    AccessTree(desc, d, a, ctx);
    assert a.Delegation() in [d];
    forall i | 0 <= i < |a.attestations|
      ensures !Valid(false, AttestationOf(d.Link(), ctx), None, a.attestations[i], Scope(false, d, [d]), ctx)
    {
      NoSessionAlone(AttestationOf(d.Link(), ctx), d, a.attestations[i], ctx);
    }
    assert Accepted(false, d, a.attestations, [d], ctx);
  }

  lemma NoSessionAlone(desc: Descriptor, d: Delegation, a: Auth, ctx: Context)
    ensures !Valid(false, desc, None, a, Scope(false, d, [d]), ctx)
  {
    assert a.Delegation() in [d] ==> a.Delegation() == d;
    assert a.Delegation() !in SessionPool(d, [d]);
  }

  lemma ReissuedAccepted(desc: Descriptor, d: Delegation, d': Delegation, a: Auth, direct: seq<Delegation>,
          kept: seq<Delegation>, ctx: Context)
    requires Plain(ctx) && Claim(desc, [Full(d)], ctx) == Ok(a) && PruneProofs(desc, d, ctx) == Ok(kept)
    requires Reissued(d, d', direct, kept) && forall e :: e in direct ==> e in kept
    requires forall n :: n in LevelOf(a.proofs) ==> Holds(direct, n.Link())
    requires ctx.timeBounds(d'.ucan) == InTime && Signed(d', ctx)
    ensures Claim(desc, [Full(d')], ctx).Ok?
  {
    AccessTree(desc, d, a, ctx);
    forall n | n in NodesOf(a.proofs)
      ensures Holds(kept, n.Link())
    {
      ProofNodesKept(desc, d, a, kept, ctx, n);
    }
    PrunedKeeps(desc, d, a, kept, ctx, d.Link());
    var a' := TreeSurvives(desc, d, d', a, direct, kept, ctx);
    AcceptAgain(desc, d', a', ctx);
  }

  lemma ProofNodesKept(desc: Descriptor, d: Delegation, a: Auth, kept: seq<Delegation>, ctx: Context, n: Delegation)
    requires Claim(desc, [Full(d)], ctx) == Ok(a) && PruneProofs(desc, d, ctx) == Ok(kept)
    requires Grounded(a, [d], ctx) && n in NodesOf(a.proofs)
    ensures Holds(kept, n.Link())
  {
    ProofNodesBelow(d, a, n, ctx);
    PrunedKeeps(desc, d, a, kept, ctx, n.Link());
    ProofNodesAreNodes(a, n);
  }

  lemma AcceptAgain(desc: Descriptor, d: Delegation, a: Auth, ctx: Context)
    requires Plain(ctx) && Valid(false, desc, None, a, [d], ctx)
    ensures Claim(desc, [Full(d)], ctx).Ok?
  {
    assert Resolved([Full(d)], ctx) == [d];
    ClaimComplete(desc, a, [Full(d)], ctx);
  }
}
