/** What a delegation by pattern is worth: `ucan:*` stands for whatever resource is claimed. */
module Patterns {
  import opened Graph
  import opened Capabilities
  import opened Validation
  import opened ProofTrees
  import opened PruningTheorems
  import opened Minimality
  import opened Scenario
  import Limits = PruningLimits

  /** A proof that covers what is claimed, from somebody who may issue it, authorizes it. */
  lemma CoveredAuthorizes(desc: Descriptor, step: Match, e: Delegation, cap: Capability, nb: Nb, ctx: Context)
    requires Orderly(ctx) && ReadsPlainly(desc) && desc.nb(step.value.nb) == Some(nb)
    requires e in ProofPool(step.source.delegation, ctx) && cap in e.ucan.Capabilities()
    requires ctx.timeBounds(e.ucan) == InTime && Signed(e, ctx)
    requires step.value.can != "" && Covers(cap.can, step.value.can) && CoversResource(cap.with, step.value.with)
    requires ctx.canIssue(Capability(step.value.can, ReadOn(cap.with, step.value.with), nb), e.ucan.issuer)
    ensures Authorize(desc, step, ctx).Ok?
  {
    hide Signed, Answer, ProofPool, Covers, CoversResource;
    var v := Capability(step.value.can, ReadOn(cap.with, step.value.with), nb);
    DefaultAnswerIff(desc, step.value, cap, v);
    var a := Auth(Match(Source(cap, e), v), [], []);
    assert Valid(false, desc, Some(step.value), a, ProofPool(step.source.delegation, ctx), ctx);
    AuthorizeComplete(desc, step, a, ctx);
  }

  /** The owner delegates `store/add` to Bob on whatever it owns. */
  function Everything(): Ucan {
    Ucan(OWNER, BOB, Capability("store/add", "ucan:*", Fields("")), [], [], None, 0, "")
  }

  function BobInvokes(): Delegation {
    Delegation(
      Ucan(BOB, SERVICE, OnOwner(), [], [Cid(Token(Everything()))], None, 0, ""),
      [Token(Everything())], [])
  }

  /** Bob's invocation on the owner's resource is accepted. */
  lemma WildcardAccepted()
    ensures Claim(StoreAdd(), [Full(BobInvokes())], Limits.PrunerContext()).Ok?
  {
    hide Claim, Authorize, Signed, Valid, ProofPool;
    var d, ctx := BobInvokes(), Limits.PrunerContext();
    var step := Match(Source(OnOwner(), d), OnOwner());
    EverythingShown(d, ctx);
    var e := Delegation(Everything(), d.Blocks(), []);
    OwnerSigns(e, ctx);
    var v := Capability("store/add", ReadOn("ucan:*", OWNER), Fields(""));
    assert v == OnOwner();
    CoveredAuthorizes(StoreAdd(), step, e, Everything().first, Fields(""), ctx);
    AuthorizeSound(StoreAdd(), step, ctx);
    BobSigns(d, ctx);
    ProvedAccepted(StoreAdd(), d, OnOwner(), OnOwner(), Authorize(StoreAdd(), step, ctx).value, ctx);
  }

  lemma BobSigns(d: Delegation, ctx: Context)
    requires d == BobInvokes() && ctx == Limits.PrunerContext()
    ensures Signed(d, ctx) && ctx.timeBounds(d.ucan) == InTime && OnOwner() in d.ucan.Capabilities()
    ensures Answer(StoreAdd(), None, OnOwner()) == Ok(OnOwner())
  {
    assert BOB[..8] == "did:key:" && d.ucan.Capabilities()[0] == OnOwner();
  }

  lemma EverythingShown(d: Delegation, ctx: Context)
    requires d == BobInvokes() && ctx == Limits.PrunerContext()
    ensures Delegation(Everything(), d.Blocks(), []) in ProofPool(d, ctx)
  {
    hide ProofPool, Limits.PrunerContext;
    assert d.Blocks()[0] == Token(Everything()) && d.ucan.proofs[0] == Cid(Token(Everything()));
    ProofPoolHas(d, Cid(Token(Everything())), ctx);
  }

  lemma OwnerSigns(e: Delegation, ctx: Context)
    requires e.ucan == Everything() && ctx == Limits.PrunerContext()
    ensures Signed(e, ctx) && Plain(ctx)
  {
    assert OWNER[..8] == "did:key:";
  }
}
