/** Exactly when the search is complete for checkers that revoke chains. */
module Revocation {
  import opened Graph
  import opened Capabilities
  import opened Validation
  import opened ProofTrees
  import opened SessionTrees
  import opened ProofOrder
  import opened ValidatorTheorems

  // ---- Contexts that revoke differently ----

  /** Contexts that differ in revocation only, and not for attestations. */
  ghost predicate Alike(ctx: Context, ctx': Context) {
    && ctx' == ctx.(isRevoked := ctx'.isRevoked)
    && forall a: Auth {:trigger ctx.isRevoked(a)} {:trigger ctx'.isRevoked(a)} ::
         a.Capability().can == "ucan/attest" ==> ctx.isRevoked(a) == ctx'.isRevoked(a)
  }

  lemma {:induction false} ResolvedAlike(proofs: seq<Proof>, ctx: Context, ctx': Context)
    requires Alike(ctx, ctx')
    ensures Resolved(proofs, ctx') == Resolved(proofs, ctx)
  {
    if proofs != [] {
      ResolvedAlike(proofs[..|proofs| - 1], ctx, ctx');
    }
  }

  lemma SignedAlike(d: Delegation, ctx: Context, ctx': Context)
    requires Alike(ctx, ctx')
    ensures Signed(d, ctx') == Signed(d, ctx) && NeedsSession(d, ctx') == NeedsSession(d, ctx)
    ensures AttestationOf(d.Link(), ctx') == AttestationOf(d.Link(), ctx)
    ensures ProofPool(d, ctx') == ProofPool(d, ctx)
  {
    ResolvedAlike(ProofsOfView(d), ctx, ctx');
  }

  lemma {:induction false} ValidAlike(loose: bool, desc: Descriptor, claimed: Option<Capability>, a: Auth,
          pool: seq<Delegation>, ctx: Context, ctx': Context)
    requires Alike(ctx, ctx') && Valid(loose, desc, claimed, a, pool, ctx)
    requires claimed.None? ==> ctx'.isRevoked(a) == ctx.isRevoked(a)
    ensures Valid(loose, desc, claimed, a, pool, ctx')
    decreases a
  {
    hide Signed;
    SignedAlike(a.Delegation(), ctx, ctx');
    AcceptedAlike(loose, a.Delegation(), a.attestations, pool, ctx, ctx');
    if a.proofs != [] {
      ValidAlike(loose, desc, Some(a.Capability()), a.proofs[0], ProofPool(a.Delegation(), ctx), ctx, ctx');
    }
  }

  lemma {:induction false} AcceptedAlike(loose: bool, d: Delegation, atts: seq<Auth>, pool: seq<Delegation>,
          ctx: Context, ctx': Context)
    requires Alike(ctx, ctx') && Accepted(loose, d, atts, pool, ctx)
    ensures Accepted(loose, d, atts, pool, ctx')
    decreases atts
  {
    hide Signed;
    SignedAlike(d, ctx, ctx');
    if !Signed(d, ctx) {
      var desc := AttestationOf(d.Link(), ctx);
      var i :| 0 <= i < |atts| && Valid(loose, desc, None, atts[i], Scope(loose, d, pool), ctx);
      TopOfClaim(loose, desc, atts[i], Scope(loose, d, pool), ctx);
      ValidAlike(loose, desc, None, atts[i], Scope(loose, d, pool), ctx, ctx');
    }
  }

  lemma FirstAlike(desc: Descriptor, claimed: Option<Capability>, a: Auth, pool: seq<Delegation>, ctx: Context,
          ctx': Context)
    requires Alike(ctx, ctx') && claimed.Some? && First(desc, claimed, a, pool, ctx)
    ensures First(desc, claimed, a, pool, ctx')
  {
    hide Valid;
    var n :| 0 <= n < |Offered(pool)| && Offered(pool)[n] == a.step.source && NoneBefore(n, desc, claimed, pool, ctx);
    forall b | Valid(true, desc, claimed, b, pool, ctx')
      ensures b.step.source !in Offered(pool)[..n]
    {
      ValidAlike(true, desc, claimed, b, pool, ctx', ctx);
    }
    assert NoneBefore(n, desc, claimed, pool, ctx');
  }

  lemma {:induction false} LeadsAlike(desc: Descriptor, claimed: Option<Capability>, a: Auth, pool: seq<Delegation>,
          ctx: Context, ctx': Context)
    requires Alike(ctx, ctx') && Leads(desc, claimed, a, pool, ctx)
    requires claimed.None? ==> ctx'.isRevoked(a) == ctx.isRevoked(a)
    ensures Leads(desc, claimed, a, pool, ctx')
    decreases a
  {
    hide Valid, First;
    ValidAlike(true, desc, claimed, a, pool, ctx, ctx');
    SignedAlike(a.Delegation(), ctx, ctx');
    if a.proofs != [] {
      var below := ProofPool(a.Delegation(), ctx);
      LeadsBelow(desc, claimed, a, pool, ctx);
      FirstAlike(desc, Some(a.Capability()), a.proofs[0], below, ctx, ctx');
      LeadsAlike(desc, Some(a.Capability()), a.proofs[0], below, ctx, ctx');
    }
  }

  // ---- Every checker ----

  /** `ctx` with the chains of `can` revoked as `revoked` says. */
  ghost function Revoking(can: string, revoked: seq<Match> -> bool, ctx: Context): Context {
    ctx.(isRevoked := (a: Auth) => if a.Capability().can == can then revoked(Steps(a)) else ctx.isRevoked(a))
  }

  ghost function RevokingNone(can: string, ctx: Context): Context {
    Revoking(can, _ => false, ctx)
  }

  /** Trees from the same match all follow the same chain. */
  ghost predicate OneChainEach(desc: Descriptor, pool: seq<Delegation>, ctx: Context) {
    forall a, b :: Valid(true, desc, None, a, pool, ctx) && Valid(true, desc, None, b, pool, ctx) && a.step == b.step
      ==> Steps(a) == Steps(b)
  }

  ghost predicate Succeeds(desc: Descriptor, proofs: seq<Proof>, revoked: seq<Match> -> bool, ctx: Context) {
    var after := Revoking(desc.can, revoked, ctx);
    Provable(desc, None, Resolved(proofs, ctx), after) ==> Claim(desc, proofs, after).Ok?
  }

  /** Whatever chains a checker revokes, a claim succeeds when some tree is left. */
  ghost predicate CompleteForAll(desc: Descriptor, proofs: seq<Proof>, ctx: Context) {
    forall revoked: seq<Match> -> bool :: Succeeds(desc, proofs, revoked, ctx)
  }

  lemma RevokingAlike(can: string, revoked: seq<Match> -> bool, ctx: Context)
    requires Orderly(ctx) && can != "ucan/attest"
    ensures Alike(ctx, Revoking(can, revoked, ctx)) && Orderly(Revoking(can, revoked, ctx))
    ensures Alike(RevokingNone(can, ctx), Revoking(can, revoked, ctx))
    ensures Alike(Revoking(can, revoked, ctx), RevokingNone(can, ctx))
    ensures RevokedByChain(can, Revoking(can, revoked, ctx))
  {
    forall a: Auth, b: Auth | Steps(a) == Steps(b) && a.Capability().can == can
      ensures Revoking(can, revoked, ctx).isRevoked(a) == Revoking(can, revoked, ctx).isRevoked(b)
    {
      assert a.step == Steps(a)[0] && b.step == Steps(b)[0];
    }
  }

  /** The search is complete for every checker that revokes chains if and only if no
      match has two chains below it. */
  lemma CompleteIffOneChainEach(desc: Descriptor, proofs: seq<Proof>, ctx: Context)
    requires Orderly(ctx) && desc.can != "ucan/attest"
    ensures CompleteForAll(desc, proofs, ctx)
       <==> OneChainEach(desc, Resolved(proofs, ctx), RevokingNone(desc.can, ctx))
  {
    var pool, free := Resolved(proofs, ctx), RevokingNone(desc.can, ctx);
    if OneChainEach(desc, pool, free) {
      forall revoked: seq<Match> -> bool
        ensures Succeeds(desc, proofs, revoked, ctx)
      {
        if Provable(desc, None, pool, Revoking(desc.can, revoked, ctx)) {
          CompleteWithOneChain(desc, proofs, revoked, ctx);
        }
      }
    }
    if CompleteForAll(desc, proofs, ctx) {
      forall a, b | Valid(true, desc, None, a, pool, free) && Valid(true, desc, None, b, pool, free) && a.step == b.step
        ensures Steps(a) == Steps(b)
      {
        TwoChains(desc, proofs, a, b, ctx);
      }
    }
  }

  lemma RevokedWhen(can: string, revoked: seq<Match> -> bool, a: Auth, ctx: Context)
    requires a.Capability().can == can
    ensures Revoking(can, revoked, ctx).isRevoked(a) == revoked(Steps(a))
    ensures !RevokingNone(can, ctx).isRevoked(a)
  {
  }

  /** The chain found below the match of a tree leads, revocation apart. */
  lemma LeaderFrom(desc: Descriptor, a: Auth, pool: seq<Delegation>, ctx: Context) returns (b: Auth)
    requires Orderly(ctx) && Valid(true, desc, None, a, pool, ctx)
    requires forall b: Auth {:trigger ctx.isRevoked(b)} :: b.Capability().can == desc.can ==> !ctx.isRevoked(b)
    ensures b.step == a.step && Leads(desc, None, b, pool, ctx) && Valid(true, desc, None, b, pool, ctx)
  {
    hide Valid, Accepted, Extend, Select, Leads;
    var atts := Sessions(Checks(pool, ctx));
    TreeGranted(desc, None, a, atts, pool, ctx);
    MatchFound(true, desc, None, a, pool, ctx);
    TopOfClaim(true, desc, a, pool, ctx);
    b := Extend(desc, a.step, atts, ctx).auth;
    ExtendStep(desc, a.step, atts, ctx);
    StepsSound(desc, None, a.step, pool, ctx);
    ExtendSound(desc, None, a.step, atts, pool, ctx);
    ValidGrows(false, true, desc, None, b, pool, pool, ctx);
    ExtendLeads(desc, None, a.step, atts, b, pool, ctx);
  }

  /** A tree that a checker leaves follows a leading chain, when its match has no other. */
  lemma CompleteWithOneChain(desc: Descriptor, proofs: seq<Proof>, revoked: seq<Match> -> bool, ctx: Context)
    requires Orderly(ctx) && desc.can != "ucan/attest"
    requires OneChainEach(desc, Resolved(proofs, ctx), RevokingNone(desc.can, ctx))
    requires Provable(desc, None, Resolved(proofs, ctx), Revoking(desc.can, revoked, ctx))
    ensures Claim(desc, proofs, Revoking(desc.can, revoked, ctx)).Ok?
  {
    hide Valid, Claim, Leads, Alike, Orderly, RevokedByChain, Revoking, RevokingNone;
    var pool, free, after := Resolved(proofs, ctx), RevokingNone(desc.can, ctx), Revoking(desc.can, revoked, ctx);
    RevokingAlike(desc.can, revoked, ctx);
    ResolvedAlike(proofs, ctx, after);
    var a :| Valid(true, desc, None, a, pool, after);
    TopOfClaim(true, desc, a, pool, after);
    RevokedWhen(desc.can, revoked, a, ctx);
    ValidAlike(true, desc, None, a, pool, after, free);
    NoneRevoked(desc.can, ctx);
    var b := LeaderFrom(desc, a, pool, free);
    RevokedWhen(desc.can, revoked, b, ctx);
    LeadsAlike(desc, None, b, pool, free, after);
    FirstChainDecides(desc, proofs, after);
  }

  lemma NoneRevoked(can: string, ctx: Context)
    requires Orderly(ctx) && can != "ucan/attest"
    ensures Orderly(RevokingNone(can, ctx))
    ensures forall b: Auth {:trigger RevokingNone(can, ctx).isRevoked(b)} ::
      b.Capability().can == can ==> !RevokingNone(can, ctx).isRevoked(b)
  {
  }

  /** Revoking every other chain leaves a tree, so its chain must be a leading one. */
  lemma ItLeads(desc: Descriptor, proofs: seq<Proof>, a: Auth, ctx: Context) returns (v: Auth)
    requires Orderly(ctx) && desc.can != "ucan/attest" && CompleteForAll(desc, proofs, ctx)
    requires Valid(true, desc, None, a, Resolved(proofs, ctx), RevokingNone(desc.can, ctx))
    ensures Steps(v) == Steps(a) && Leads(desc, None, v, Resolved(proofs, ctx), RevokingNone(desc.can, ctx))
  {
    hide Valid, Claim, Leads, Alike, Orderly, RevokedByChain, Revoking, RevokingNone;
    var others: seq<Match> -> bool := s => s != Steps(a);
    var pool, free, after := Resolved(proofs, ctx), RevokingNone(desc.can, ctx), Revoking(desc.can, others, ctx);
    RevokingAlike(desc.can, others, ctx);
    ResolvedAlike(proofs, ctx, after);
    TopOfClaim(true, desc, a, pool, free);
    RevokedWhen(desc.can, others, a, ctx);
    ValidAlike(true, desc, None, a, pool, free, after);
    assert Provable(desc, None, pool, after);
    assert Succeeds(desc, proofs, others, ctx);
    ClaimLeads(desc, proofs, after);
    v := Claim(desc, proofs, after).value;
    LeadsValid(desc, v, pool, after);
    RevokedWhen(desc.can, others, v, ctx);
    LeadsAlike(desc, None, v, pool, after, free);
  }

  lemma LeadsValid(desc: Descriptor, a: Auth, pool: seq<Delegation>, ctx: Context)
    requires Leads(desc, None, a, pool, ctx)
    ensures !ctx.isRevoked(a) && a.Capability().can == desc.can
  {
    TopOfClaim(true, desc, a, pool, ctx);
  }

  lemma TwoChains(desc: Descriptor, proofs: seq<Proof>, a: Auth, b: Auth, ctx: Context)
    requires Orderly(ctx) && desc.can != "ucan/attest" && CompleteForAll(desc, proofs, ctx)
    requires Valid(true, desc, None, a, Resolved(proofs, ctx), RevokingNone(desc.can, ctx))
    requires Valid(true, desc, None, b, Resolved(proofs, ctx), RevokingNone(desc.can, ctx)) && a.step == b.step
    ensures Steps(a) == Steps(b)
  {
    hide Valid, Claim, Leads, Orderly, RevokingNone;
    var v := ItLeads(desc, proofs, a, ctx);
    var w := ItLeads(desc, proofs, b, ctx);
    assert Steps(v)[0] == a.step && Steps(w)[0] == b.step;
    OneLeadingChain(desc, None, v, w, Resolved(proofs, ctx), RevokingNone(desc.can, ctx));
  }
}
