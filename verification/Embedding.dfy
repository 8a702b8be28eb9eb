/** More proofs, and more of their blocks, on a delegation. An embedded block hides what
    a resolver would have answered (core/delegation/proofs.go), so blocks can hurt. */
module Embedding {
  import opened Graph
  import opened Capabilities
  import opened Validation
  import opened ProofTrees
  import opened PruningTheorems
  import opened PruningLimits
  import opened Scenario

  /** What a proof link resolves to from `d`: the embedded token before the resolver's. */
  function Resolve(d: Delegation, l: Link, ctx: Context): (r: Option<Delegation>)
    ensures r.Some? ==> r.value.Link() == l
  {
    match View(l, d.Blocks())
    case Some(e) => Some(e)
    case None => ctx.ResolveProof(l)
  }

  /** A proof of `d` that resolves and delegates to its issuer. */
  predicate Usable(d: Delegation, l: Link, ctx: Context) {
    l in d.ucan.proofs && Resolve(d, l, ctx).Some? && Resolve(d, l, ctx).value.ucan.audience == d.ucan.issuer
  }

  lemma PoolIsUsable(d: Delegation, e: Delegation, ctx: Context)
    ensures e in ProofPool(d, ctx) <==> Usable(d, e.Link(), ctx) && Resolve(d, e.Link(), ctx) == Some(e)
  {
    var proofs := ProofsOfView(d);
    ResolvedHas(proofs, ctx, e);
    if e in Resolved(proofs, ctx) {
      var p :| p in proofs && ResolveOne(p, ctx) == Some(e);
      var i :| 0 <= i < |proofs| && proofs[i] == p;
      assert d.ucan.proofs[i] == e.Link();
    }
    if Usable(d, e.Link(), ctx) && Resolve(d, e.Link(), ctx) == Some(e) {
      var i :| 0 <= i < |d.ucan.proofs| && d.ucan.proofs[i] == e.Link();
      assert proofs[i] in proofs && ResolveOne(proofs[i], ctx) == Some(e);
    }
  }

  // ---- When one view is as rich as another ----

  /** Whatever `d` can use, `d'` can use, and what it gets is as rich all the way down. */
  ghost predicate Richer(d: Delegation, d': Delegation, ctx: Context)
    decreases Rank(d.Link()), 1
  {
    && d.ucan.issuer == d'.ucan.issuer
    && forall l :: Usable(d, l, ctx) ==> Usable(d', l, ctx) && RicherBelow(d, d', l, ctx)
  }

  ghost predicate RicherBelow(d: Delegation, d': Delegation, l: Link, ctx: Context)
    requires Usable(d, l, ctx) && Usable(d', l, ctx)
    decreases Rank(d.Link()), 0
  {
    RankBelowTop(d.ucan.proofs, l);
    Richer(Resolve(d, l, ctx).value, Resolve(d', l, ctx).value, ctx)
  }

  /** The delegation at the end of a chain of usable proofs. */
  function Follow(d: Delegation, path: seq<Link>, ctx: Context): Option<Delegation>
    decreases |path|
  {
    if path == [] then Some(d)
    else if Usable(d, path[0], ctx) then Follow(Resolve(d, path[0], ctx).value, path[1..], ctx)
    else None
  }

  ghost predicate FollowsAll(d: Delegation, d': Delegation, ctx: Context) {
    forall path :: Follow(d, path, ctx).Some? ==> Follow(d', path, ctx).Some?
  }

  /** A view is as rich as another exactly when every chain of proofs that can be
      followed from that one can be followed from it. */
  lemma {:induction false} RicherIffChains(d: Delegation, d': Delegation, ctx: Context)
    requires d.ucan.issuer == d'.ucan.issuer
    ensures Richer(d, d', ctx) <==> FollowsAll(d, d', ctx)
    decreases Rank(d.Link())
  {
    forall l | Usable(d, l, ctx) && Usable(d', l, ctx)
      ensures RicherBelow(d, d', l, ctx) <==> FollowsAll(Resolve(d, l, ctx).value, Resolve(d', l, ctx).value, ctx)
    {
      RankBelowTop(d.ucan.proofs, l);
      RicherIffChains(Resolve(d, l, ctx).value, Resolve(d', l, ctx).value, ctx);
    }
    if Richer(d, d', ctx) {
      forall path | Follow(d, path, ctx).Some?
        ensures Follow(d', path, ctx).Some?
      {
        if path != [] {
          assert RicherBelow(d, d', path[0], ctx);
        }
      }
    }
    if FollowsAll(d, d', ctx) {
      forall l | Usable(d, l, ctx)
        ensures Usable(d', l, ctx) && RicherBelow(d, d', l, ctx)
      {
        FollowsOne(d, d', l, ctx);
      }
    }
  }

  lemma FollowsOne(d: Delegation, d': Delegation, l: Link, ctx: Context)
    requires FollowsAll(d, d', ctx) && Usable(d, l, ctx)
    ensures Usable(d', l, ctx) && FollowsAll(Resolve(d, l, ctx).value, Resolve(d', l, ctx).value, ctx)
  {
    FollowOne(d, l, [], ctx);
    FollowOne(d', l, [], ctx);
    assert Follow(d, [l], ctx).Some?;
    forall path | Follow(Resolve(d, l, ctx).value, path, ctx).Some?
      ensures Follow(Resolve(d', l, ctx).value, path, ctx).Some?
    {
      FollowOne(d, l, path, ctx);
      FollowOne(d', l, path, ctx);
    }
  }

  lemma FollowOne(d: Delegation, l: Link, path: seq<Link>, ctx: Context)
    ensures Follow(d, [l] + path, ctx).Some? <==> Usable(d, l, ctx) && Follow(Resolve(d, l, ctx).value, path, ctx).Some?
    ensures [l] + [] == [l]
  {
    assert ([l] + path)[1..] == path;
  }

  // ---- Richer views lose nothing ----

  ghost predicate Covered(pool: seq<Delegation>, pool': seq<Delegation>, ctx: Context) {
    forall p :: p in pool ==> exists p' :: p' in pool' && AsRich(p, p', ctx)
  }

  ghost predicate AsRich(p: Delegation, p': Delegation, ctx: Context) {
    p'.ucan == p.ucan && Richer(p, p', ctx)
  }

  lemma PoolCovered(d: Delegation, d': Delegation, ctx: Context)
    requires Richer(d, d', ctx)
    ensures Covered(ProofPool(d, ctx), ProofPool(d', ctx), ctx)
  {
    forall p | p in ProofPool(d, ctx)
      ensures exists p' :: p' in ProofPool(d', ctx) && AsRich(p, p', ctx)
    {
      PoolIsUsable(d, p, ctx);
      assert RicherBelow(d, d', p.Link(), ctx);
      var p' := Resolve(d', p.Link(), ctx).value;
      PoolIsUsable(d', p', ctx);
      assert p.Link() == p'.Link();
      assert AsRich(p, p', ctx);
    }
  }

  /** A tree is found again over a pool of richer views. */
  lemma {:induction false} TreeMoves(desc: Descriptor, claimed: Option<Capability>, a: Auth, pool: seq<Delegation>,
          pool': seq<Delegation>, ctx: Context)
      returns (a': Auth)
    requires Unrevoked(ctx) && Valid(false, desc, claimed, a, pool, ctx) && Covered(pool, pool', ctx)
    ensures Valid(false, desc, claimed, a', pool', ctx)
    decreases a
  {
    hide Richer, Answer, ProofPool, Signed;
    var d := a.Delegation();
    var d' :| d' in pool' && AsRich(d, d', ctx);
    var atts := AcceptanceMoves(d, d', a.attestations, pool, pool', ctx);
    var step := Match(Source(a.step.source.capability, d'), a.step.value);
    if a.proofs == [] {
      a' := Auth(step, [], atts);
    } else {
      PoolCovered(d, d', ctx);
      var below := TreeMoves(desc, Some(a.Capability()), a.proofs[0], ProofPool(d, ctx), ProofPool(d', ctx), ctx);
      a' := Auth(step, [below], atts);
    }
  }

  lemma {:induction false} AcceptanceMoves(d: Delegation, d': Delegation, atts: seq<Auth>, pool: seq<Delegation>,
          pool': seq<Delegation>, ctx: Context)
      returns (atts': seq<Auth>)
    requires Unrevoked(ctx) && Accepted(false, d, atts, pool, ctx) && Covered(pool, pool', ctx) && d'.ucan == d.ucan
    ensures Accepted(false, d', atts', pool', ctx)
    decreases atts
  {
    hide Richer, Valid;
    atts' := [];
    if Signed(d, ctx) {
      SignedByToken(d, d', ctx);
    } else {
      var desc := AttestationOf(d.Link(), ctx);
      var i :| 0 <= i < |atts| && Valid(false, desc, None, atts[i], Scope(false, d, pool), ctx);
      SessionCovered(d, d', pool, pool', ctx);
      var att := TreeMoves(desc, None, atts[i], SessionPool(d, pool), SessionPool(d', pool'), ctx);
      atts' := [att];
      assert atts'[0] == att;
    }
  }

  lemma SessionCovered(d: Delegation, d': Delegation, pool: seq<Delegation>, pool': seq<Delegation>, ctx: Context)
    requires Covered(pool, pool', ctx) && d'.ucan == d.ucan
    ensures Covered(SessionPool(d, pool), SessionPool(d', pool'), ctx)
  {
    hide Richer;
    forall p | p in SessionPool(d, pool)
      ensures exists p' :: p' in SessionPool(d', pool') && AsRich(p, p', ctx)
    {
      var p' :| p' in pool' && AsRich(p, p', ctx);
      assert p' in SessionPool(d', pool');
    }
  }

  /** Richer views of the proofs never lose a claim. */
  lemma ClaimKept(desc: Descriptor, proofs: seq<Proof>, proofs': seq<Proof>, ctx: Context)
    requires Plain(ctx) && Claim(desc, proofs, ctx).Ok?
    requires Covered(Resolved(proofs, ctx), Resolved(proofs', ctx), ctx)
    ensures Claim(desc, proofs', ctx).Ok?
  {
    hide Claim, Valid, Richer;
    ClaimSound(desc, proofs, ctx);
    var a := TreeMoves(desc, None, Claim(desc, proofs, ctx).value, Resolved(proofs, ctx), Resolved(proofs', ctx), ctx);
    ClaimComplete(desc, a, proofs', ctx);
  }

  /** The same value claimed through a richer view of a delegation. */
  lemma AuthorizeKept(desc: Descriptor, step: Match, step': Match, ctx: Context)
    requires Plain(ctx) && Authorize(desc, step, ctx).Ok? && step.value == step'.value
    requires Richer(step.source.delegation, step'.source.delegation, ctx)
    ensures Authorize(desc, step', ctx).Ok?
  {
    hide Authorize, Valid, Richer;
    AuthorizeSound(desc, step, ctx);
    var pool, pool' := ProofPool(step.source.delegation, ctx), ProofPool(step'.source.delegation, ctx);
    PoolCovered(step.source.delegation, step'.source.delegation, ctx);
    var a := TreeMoves(desc, Some(step.value), Authorize(desc, step, ctx).value, pool, pool', ctx);
    AuthorizeComplete(desc, step', a, ctx);
  }

  // ---- More proofs and more blocks ----

  /** `d'` cites and carries all that `d` does, and no link whose block it gains was
      answered by the resolver. */
  predicate Extends(d: Delegation, d': Delegation) {
    && d'.ucan.issuer == d.ucan.issuer
    && (forall l :: l in d.ucan.proofs ==> l in d'.ucan.proofs)
    && forall b :: b in d.Blocks() ==> b in d'.Blocks()
  }

  ghost predicate GainsNoAnswer(d: Delegation, d': Delegation, ctx: Context) {
    forall b :: b in d'.Blocks() && b !in d.Blocks() ==> ctx.ResolveProof(Cid(b)).None?
  }

  lemma ExtendsRicher(d: Delegation, d': Delegation, ctx: Context)
    requires Extends(d, d') && GainsNoAnswer(d, d', ctx)
    ensures Richer(d, d', ctx)
  {
    forall l | Usable(d, l, ctx)
      ensures Usable(d', l, ctx) && RicherBelow(d, d', l, ctx)
    {
      RankBelowTop(d.ucan.proofs, l);
      LinkKept(d, d', l, ctx);
    }
  }

  lemma {:induction false} LinkKept(d: Delegation, d': Delegation, l: Link, ctx: Context)
    requires Extends(d, d') && GainsNoAnswer(d, d', ctx) && Usable(d, l, ctx)
    ensures Usable(d', l, ctx) && Richer(Resolve(d, l, ctx).value, Resolve(d', l, ctx).value, ctx)
    decreases Rank(l), 1
  {
    var e := Resolve(d, l, ctx).value;
    if View(l, d.Blocks()).Some? {
      var e' := Resolve(d', l, ctx).value;
      assert e.Blocks() == d.Blocks() && e'.Blocks() == d'.Blocks();
      assert e'.ucan == e.ucan;
      forall m | Usable(e, m, ctx)
        ensures Usable(e', m, ctx) && RicherBelow(e, e', m, ctx)
      {
        RankBelowTop(e.ucan.proofs, m);
        LinkKept(e, e', m, ctx);
      }
    } else {
      assert l.content.Token? && l == Cid(l.content);
      assert Resolve(d', l, ctx) == Some(e);
      RicherSelf(e, ctx);
    }
  }

  lemma {:induction false} RicherSelf(d: Delegation, ctx: Context)
    ensures Richer(d, d, ctx)
    decreases Rank(d.Link())
  {
    forall l | Usable(d, l, ctx)
      ensures RicherBelow(d, d, l, ctx)
    {
      RankBelowTop(d.ucan.proofs, l);
      RicherSelf(Resolve(d, l, ctx).value, ctx);
    }
  }

  /** More proofs and more embedded blocks never lose an authorization, unless a block
      gained hides an answer of the resolver. */
  lemma AuthorizeMonotone(desc: Descriptor, step: Match, step': Match, ctx: Context)
    requires Plain(ctx) && Authorize(desc, step, ctx).Ok? && step.value == step'.value
    requires Extends(step.source.delegation, step'.source.delegation)
    requires GainsNoAnswer(step.source.delegation, step'.source.delegation, ctx)
    ensures Authorize(desc, step', ctx).Ok?
  {
    hide Authorize, Richer;
    ExtendsRicher(step.source.delegation, step'.source.delegation, ctx);
    AuthorizeKept(desc, step, step', ctx);
  }

  /** Nor do they lose an invocation, which then only has to be in time and signed. */
  lemma InvocationMonotone(desc: Descriptor, d: Delegation, d': Delegation, ctx: Context)
    requires Plain(ctx) && Claim(desc, [Full(d)], ctx).Ok? && d'.ucan.Capabilities() == d.ucan.Capabilities()
    requires Extends(d, d') && GainsNoAnswer(d, d', ctx)
    ensures Claim(desc, [Full(d')], ctx).Ok? <==> ctx.timeBounds(d'.ucan) == InTime && Signed(d', ctx)
  {
    hide Claim, Richer, Signed;
    if Claim(desc, [Full(d')], ctx).Ok? {
      AloneIsSigned(desc, d', ctx);
    }
    if ctx.timeBounds(d'.ucan) == InTime && Signed(d', ctx) {
      ExtendsRicher(d, d', ctx);
      InvocationKept(desc, d, d', ctx);
    }
  }

  /** The top of a tree on `d`, put on `d'` with other proofs below. */
  lemma SameTop(desc: Descriptor, a: Auth, d: Delegation, d': Delegation, proofs: seq<Auth>, ctx: Context)
    requires Unrevoked(ctx) && Valid(false, desc, None, a, [d], ctx)
    requires d'.ucan.issuer == d.ucan.issuer && d'.ucan.Capabilities() == d.ucan.Capabilities()
    requires ctx.timeBounds(d'.ucan) == InTime && Signed(d', ctx)
    requires |proofs| == |a.proofs|
    requires proofs != [] ==> Valid(false, desc, Some(a.Capability()), proofs[0], ProofPool(d', ctx), ctx)
    ensures Valid(false, desc, None,
      Auth(Match(Source(a.step.source.capability, d'), a.Capability()), proofs, []), [d'], ctx)
  {
    hide Answer, ProofPool, Signed;
    assert a.Delegation() in [d] && d' in [d'];
    assert Accepted(false, d', [], [d'], ctx);
  }

  lemma InvocationKept(desc: Descriptor, d: Delegation, d': Delegation, ctx: Context)
    requires Plain(ctx) && Claim(desc, [Full(d)], ctx).Ok? && d'.ucan.Capabilities() == d.ucan.Capabilities()
    requires Richer(d, d', ctx) && ctx.timeBounds(d'.ucan) == InTime && Signed(d', ctx)
    ensures Claim(desc, [Full(d')], ctx).Ok?
  {
    hide Claim, Signed, ProofPool, Accepted, Answer;
    var a := Claim(desc, [Full(d)], ctx).value;
    AccessTree(desc, d, a, ctx);
    assert a.Delegation() in [d];
    var proofs := [];
    if a.proofs != [] {
      PoolCovered(d, d', ctx);
      var below := TreeMoves(desc, Some(a.Capability()), a.proofs[0], ProofPool(d, ctx), ProofPool(d', ctx), ctx);
      proofs := [below];
    }
    var a' := Auth(Match(Source(a.step.source.capability, d'), a.Capability()), proofs, []);
    SameTop(desc, a, d, d', proofs, ctx);
    AcceptAgain(desc, d', a', ctx);
  }

  // ---- A block that hurts ----

  /** The pruner's context, with a resolver that knows Bob's proof and what it cites. */
  function Remote(): Context {
    PrunerContext().(resolveProof := l => if l == Cid(Token(ToBob())) then Some(ProofBlocks()) else None)
  }

  /** The draft's token, with these blocks embedded. */
  function Invocation(blocks: seq<Block>): Delegation {
    Delegation(Draft().ucan, blocks, [])
  }

  function OnInvocation(blocks: seq<Block>): Match {
    Match(Source(OnOwner(), Invocation(blocks)), OnOwner())
  }

  /** Embedding the block of a proof that the resolver would have answered with its own
      proofs refuses what was authorized before. */
  lemma EmbeddingCanHurt()
    ensures Plain(Remote()) && Extends(Invocation([]), Invocation([Token(ToBob())]))
    ensures Authorize(StoreAdd(), OnInvocation([]), Remote()).Ok?
    ensures Authorize(StoreAdd(), OnInvocation([Token(ToBob())]), Remote()).Err?
    ensures Remote().ResolveProof(Cid(Token(ToBob()))).Some?
  {
    hide Authorize, Valid, ProofPool;
    var ctx := Remote();
    Keys();
    MiddleValid(ctx);
    RemotePool(ctx);
    AuthorizeComplete(StoreAdd(), OnInvocation([]), Auth(Step(ToBob()), [Auth(Step(ToCarol()), [], [])], []), ctx);
    if Authorize(StoreAdd(), OnInvocation([Token(ToBob())]), ctx).Ok? {
      AuthorizeSound(StoreAdd(), OnInvocation([Token(ToBob())]), ctx);
      NothingBelow(Authorize(StoreAdd(), OnInvocation([Token(ToBob())]), ctx).value, ctx);
    }
  }

  lemma OnlyUsable(d: Delegation, p: Ucan, e: Delegation, ctx: Context)
    requires d.ucan.proofs == [Cid(Token(p))] && Resolve(d, Cid(Token(p)), ctx) == Some(e)
    requires p.audience == d.ucan.issuer
    ensures ProofPool(d, ctx) == [e]
  {
    var proofs := ProofsOfView(d);
    assert Resolved(proofs[..0], ctx) == [];
    assert ResolveOne(proofs[0], ctx) == Some(e);
    assert Resolved(proofs, ctx) == [e];
    assert [e][..0] == [] && Aligned(d, []) == [];
  }

  lemma RemotePool(ctx: Context)
    requires ctx == Remote()
    ensures ProofPool(Invocation([]), ctx) == [Shown(ToBob())]
    ensures ProofPool(Invocation([Token(ToBob())]), ctx) == [Delegation(ToBob(), [Token(ToBob())], [])]
  {
    var blocks := [Token(ToBob())];
    assert Invocation([]).Blocks() == [] && Invocation(blocks).Blocks() == blocks;
    assert Token(ToBob()) in blocks;
    OnlyUsable(Invocation([]), ToBob(), Shown(ToBob()), ctx);
    OnlyUsable(Invocation(blocks), ToBob(), Delegation(ToBob(), blocks, []), ctx);
  }

  lemma NothingBelow(a: Auth, ctx: Context)
    requires ctx == Remote()
    ensures !Valid(false, StoreAdd(), Some(OnOwner()), a, [Delegation(ToBob(), [Token(ToBob())], [])], ctx)
  {
    hide Accepted, ProofPool;
    var d := Delegation(ToBob(), [Token(ToBob())], []);
    assert OWNER[8] == 'o' && CAROL[8] == 'c';
    NothingUsable(d, ctx);
    assert a.Delegation() in [d] ==> a.Delegation() == d;
    assert forall p: Auth :: !Valid(false, StoreAdd(), Some(OnOwner()), p, [], ctx);
  }

  lemma NothingUsable(d: Delegation, ctx: Context)
    requires ctx == Remote() && d == Delegation(ToBob(), [Token(ToBob())], [])
    ensures ProofPool(d, ctx) == []
  {
    assert OWNER[8] == 'o' && CAROL[8] == 'c';
    assert ToCarol().issuer != ToBob().issuer;
    assert d.Blocks() == [Token(ToBob())];
    var proofs := ProofsOfView(d);
    assert proofs == [Ref(Cid(Token(ToCarol())))];
    assert proofs[..0] == [] && ResolveOne(proofs[0], ctx).None?;
    assert Resolved(proofs, ctx) == [];
  }
}
