/** Sessions attested by a principal that the authority delegated attesting to. */
module AuthorityProofs {
  import opened Graph
  import opened Capabilities
  import opened Validation
  import opened ProofTrees
  import opened ValidatorTheorems
  import opened Boundaries
  import opened Scenario

  // ---- What attests ----

  /** An attestation of a delegation is read as it stands, on an accepted resource. */
  lemma AttestsIff(link: Link, cap: Capability, v: Capability, ctx: Context)
    ensures Answer(AttestationOf(link, ctx), None, cap) == Ok(v) <==>
      v == cap && cap.can == "ucan/attest" && Attestor(cap.with, ctx) && cap.nb == Attestation(link)
  {
  }

  /** A capability delegates that attestation exactly when it covers it, by ability and by
      resource, and is itself read on an accepted resource. */
  lemma DelegatesAttestingIff(link: Link, claim: Capability, cap: Capability, v: Capability, ctx: Context)
    ensures Answer(AttestationOf(link, ctx), Some(claim), cap) == Ok(v) <==>
      && claim.can != "" && Covers(cap.can, claim.can) && CoversResource(cap.with, claim.with)
      && Attestor(ReadOn(cap.with, claim.with), ctx) && claim.nb == Attestation(link)
      && v == Capability(claim.can, ReadOn(cap.with, claim.with), claim.nb)
  {
    hide Answer, Covers, CoversResource;
    AnswersBelowIff(AttestationOf(link, ctx), claim, cap, v);
    if v.with == ReadOn(cap.with, claim.with) {
      DerivesIffCovered(claim, cap.with, v);
    }
  }

  // ---- A session through an authority proof ----

  const OTHER: Did := "did:web:other"

  /** The authority lets `audience` attest. Only `OTHER` resolves to a key. */
  function Letting(audience: Did): Context {
    Context(
      Verifier(SERVICE, "service"),
      IsSelfIssued,
      Never,
      _ => None,
      did => Some(Verifier(did, did)),
      did => if did == OTHER then Some(BOB) else None,
      (u, key) => Verified,
      u => InTime,
      [LetsAttest(audience)])
  }

  function LetsAttest(audience: Did): Delegation {
    Delegation(Ucan(SERVICE, audience, Capability("ucan/attest", SERVICE, Fields("")), [], [], None, 0, ""), [], [])
  }

  /** `OTHER` attests Alice's delegation, on its own resource. */
  function Attesting(): Capability {
    Capability("ucan/attest", OTHER, Attestation(FromAlice().Link()))
  }

  function OtherAttests(): Delegation {
    Delegation(Ucan(OTHER, SERVICE, Attesting(), [], [], None, 0, ""), [], [])
  }

  function Pool(): seq<Delegation> {
    [FromAlice(), OtherAttests()]
  }

  lemma Cast(ctx: Context, audience: Did)
    requires ctx == Letting(audience)
    ensures NeedsSession(FromAlice(), ctx) && NeedsSession(OtherAttests(), ctx) && Unrevoked(ctx)
    ensures FromAlice().Link() != OtherAttests().Link()
    ensures VerifyResolvedKey(FromAlice(), ctx).Err? && VerifyResolvedKey(OtherAttests(), ctx).Ok?
    ensures Attestor(OTHER, ctx) <==> audience == OTHER
  {
    assert ALICE[4] == 'm' && OTHER[4] == 'w' && SERVICE[8] == 's' && OTHER[8] == 'o' && BOB[..8] == "did:key:";
    assert FromAlice().ucan.issuer == ALICE && OtherAttests().ucan.issuer == OTHER;
    assert ctx.authorityProofs[0] == LetsAttest(audience);
  }

  lemma OnlyOther()
    requires FromAlice().Link() != OtherAttests().Link()
    ensures SessionPool(FromAlice(), Pool()) == [OtherAttests()] && SessionPool(OtherAttests(), [OtherAttests()]) == []
  {
    assert Pool() == [] + [FromAlice()] + [OtherAttests()] && [OtherAttests()] == [] + [OtherAttests()];
    SessionPoolSnoc(FromAlice(), [], FromAlice());
    SessionPoolSnoc(FromAlice(), [FromAlice()], OtherAttests());
    SessionPoolSnoc(OtherAttests(), [], OtherAttests());
  }

  lemma OtherIsValid(ctx: Context, audience: Did)
    requires ctx == Letting(audience)
    ensures Validate(OtherAttests(), [OtherAttests()], ctx).Ok?
  {
    hide Validate, VerifySession, VerifyResolvedKey, SessionPool;
    Cast(ctx, audience);
    OnlyOther();
    FallbackIff(OtherAttests(), [OtherAttests()], ctx);
  }

  /** Alice's delegation passes exactly when the authority lets `OTHER` attest. */
  lemma AliceVouchedIff(ctx: Context, audience: Did)
    requires ctx == Letting(audience)
    ensures Validate(FromAlice(), Pool(), ctx).Ok? <==> audience == OTHER
  {
    hide Validate, VerifySession, VerifyResolvedKey, SessionPool, Attestor;
    var d, e := FromAlice(), OtherAttests();
    Cast(ctx, audience);
    OnlyOther();
    OtherIsValid(ctx, audience);
    VerdictIff(d, Pool(), ctx);
    assert e.ucan.Capabilities() == [Attesting()] && [e][0] == e;
    if audience == OTHER {
      assert NamedBy(d, e, Attesting(), [e], ctx) && MayAttest(d, e, Attesting(), ctx);
    }
  }

  /** A session attested on the resource of a principal that the authority let attest
      is accepted; the same session is refused when it let another attest. */
  lemma AcceptedIffLet(audience: Did)
    ensures Claim(StoreAdd(), [Full(FromAlice()), Full(OtherAttests())], Letting(audience)).Ok? <==> audience == OTHER
  {
    hide Claim, Validate, Authorize;
    var ctx := Letting(audience);
    var proofs := [Full(FromAlice()), Full(OtherAttests())];
    assert proofs == AsProofs(Pool());
    ResolvedAsProofs(Pool(), ctx);
    Cast(ctx, audience);
    AliceVouchedIff(ctx, audience);
    ClaimIffSupported(StoreAdd(), proofs, Pool(), ctx);
    var cap := FromAlice().ucan.first;
    assert Pool()[0] == FromAlice() && FromAlice().ucan.Capabilities()[0] == cap;
    assert Supports(StoreAdd(), FromAlice(), cap, cap, ctx);
    forall d, c, v | d in Pool() && Supports(StoreAdd(), d, c, v, ctx)
      ensures d == FromAlice()
    {
      OtherStoresNothing(c, v, ctx);
    }
  }

  lemma OtherStoresNothing(cap: Capability, v: Capability, ctx: Context)
    ensures !Supports(StoreAdd(), OtherAttests(), cap, v, ctx)
  {
    assert OtherAttests().ucan.Capabilities() == [Attesting()];
  }
}
