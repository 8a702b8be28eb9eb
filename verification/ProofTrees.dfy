/** Proof trees, defined without any search, and the two directions that tie the
    search to them. */
module ProofTrees {
  import opened Graph
  import opened Capabilities
  import opened Validation

  /** The issuer's own key vouches for `d`: its did:key, the authority's key, or a key
      resolved for its DID. */
  ghost predicate Signed(d: Delegation, ctx: Context) {
    if IsKey(d.ucan.issuer) then
      && ctx.parsePrincipal(d.ucan.issuer).Some?
      && VerifySignature(d, ctx.parsePrincipal(d.ucan.issuer).value, ctx).Ok?
    else if d.ucan.issuer == ctx.authority.did then
      VerifySignature(d, ctx.authority, ctx).Ok?
    else
      VerifyResolvedKey(d, ctx).Ok?
  }

  /** `key` speaks for `issuer`: it is the key in a did:key, the authority's own, or the
      did:key that the issuer's DID resolves to. */
  ghost predicate SpeaksFor(key: string, issuer: Did, ctx: Context) {
    || ("did:key:" <= issuer && ctx.parsePrincipal(issuer) == Some(Verifier(issuer, key)))
    || (!("did:key:" <= issuer) && ctx.authority == Verifier(issuer, key))
    || (!("did:key:" <= issuer) && ctx.authority.did != issuer
        && exists did, owner :: ctx.resolveDidKey(issuer) == Some(did)
            && ctx.parsePrincipal(did) == Some(Verifier(owner, key)) && "did:key:" <= owner)
  }

  /** A delegation is signed if and only if its signature verifies under a key that
      speaks for its issuer. */
  lemma SignedIffKeyVerifies(d: Delegation, ctx: Context)
    ensures Signed(d, ctx) <==> exists key :: SpeaksFor(key, d.ucan.issuer, ctx) && ctx.check(d.ucan, key) == Verified
  {
    var issuer := d.ucan.issuer;
    if Signed(d, ctx) {
      var key := if IsKey(issuer) then ctx.parsePrincipal(issuer).value.key
        else if issuer == ctx.authority.did then ctx.authority.key
        else ctx.parsePrincipal(ctx.resolveDidKey(issuer).value).value.key;
      if NeedsSession(d, ctx) {
        var did := ctx.resolveDidKey(issuer).value;
        assert ctx.parsePrincipal(did) == Some(Verifier(ctx.parsePrincipal(did).value.did, key));
      }
      assert SpeaksFor(key, issuer, ctx);
    }
  }

  predicate NeedsSession(d: Delegation, ctx: Context) {
    !IsKey(d.ucan.issuer) && d.ucan.issuer != ctx.authority.did
  }

  /** Where attestations for `d` may come from. The search excludes `d` itself; a
      `loose` tree may use any attestation of the pool. */
  ghost function Scope(loose: bool, d: Delegation, pool: seq<Delegation>): (r: seq<Delegation>) {
    if loose then OnlyAttestations(pool) else SessionPool(d, pool)
  }

  /** `a` proves a capability of `desc` from `pool`: its delegation is in the pool, is
      accepted, answers the claim, and either may issue the value itself or has a
      proof that does. At the top of a claim, where nothing is claimed yet, `a` must
      not be revoked; the claims of sessions are no exception. */
  ghost predicate Valid(loose: bool, desc: Descriptor, claimed: Option<Capability>, a: Auth, pool: seq<Delegation>,
          ctx: Context)
    decreases a
  {
    var d := a.Delegation();
    && d in pool
    && a.step.source.capability in d.ucan.Capabilities()
    && Answer(desc, claimed, a.step.source.capability) == Ok(a.Capability())
    && Accepted(loose, d, a.attestations, pool, ctx)
    && (|| (a.proofs == [] && ctx.canIssue(a.Capability(), d.ucan.issuer))
        || (|a.proofs| == 1 && Valid(loose, desc, Some(a.Capability()), a.proofs[0], ProofPool(d, ctx), ctx)))
    && (claimed.None? ==> !ctx.isRevoked(a))
  }

  /** `d` is within its time bounds and its issuer vouches for it, by key or through
      an attestation among `attestations`. */
  ghost predicate Accepted(loose: bool, d: Delegation, attestations: seq<Auth>, pool: seq<Delegation>, ctx: Context)
    decreases attestations
  {
    && ctx.timeBounds(d.ucan) == InTime
    && (|| Signed(d, ctx)
        || (NeedsSession(d, ctx)
            && exists i :: 0 <= i < |attestations|
                && Valid(loose, AttestationOf(d.Link(), ctx), None, attestations[i], Scope(loose, d, pool), ctx)))
  }

  /** Nothing is revoked. */
  ghost predicate Unrevoked(ctx: Context) {
    forall a :: !ctx.isRevoked(a)
  }

  ghost predicate Keyless(ctx: Context) {
    forall did :: ctx.resolveDidKey(did).None?
  }

  /** Nothing is revoked and no DID resolves to a key. */
  ghost predicate Plain(ctx: Context) {
    Unrevoked(ctx) && Keyless(ctx)
  }

  /** Whether a claim of `can` is revoked depends on its own match, not on the chain or
      the sessions below it. */
  ghost predicate RevokedByMatch(can: string, ctx: Context) {
    forall a: Auth, b: Auth {:trigger ctx.isRevoked(a), ctx.isRevoked(b)} ::
      a.step == b.step && a.Capability().can == can ==> ctx.isRevoked(a) == ctx.isRevoked(b)
  }

  /** No DID resolves to a key, and sessions are revoked by their attestations. */
  ghost predicate Orderly(ctx: Context) {
    Keyless(ctx) && RevokedByMatch("ucan/attest", ctx)
  }

  /** A signature depends on the token alone, not on the view it comes in. */
  lemma SignedByToken(d: Delegation, e: Delegation, ctx: Context)
    requires d.ucan == e.ucan && Signed(d, ctx)
    ensures Signed(e, ctx)
  {
  }

  // ---- Soundness ----

  /** A successful claim is one of its attempts. */
  lemma ClaimPicks(desc: Descriptor, proofs: seq<Proof>, pool: seq<Delegation>, ctx: Context) returns (step: Match)
    requires Claim(desc, proofs, ctx).Ok? && pool == Resolved(proofs, ctx)
    ensures step in Select(desc, None, Sources(pool, Checks(pool, ctx))).matches
    ensures Review(Extend(desc, step, Sessions(Checks(pool, ctx)), ctx), ctx) == Granted(Claim(desc, proofs, ctx).value)
  {
    var steps := Select(desc, None, Sources(pool, Checks(pool, ctx))).matches;
    var attempts := ClaimAttempts(desc, steps, Sessions(Checks(pool, ctx)), ctx);
    FirstGrantedIs(attempts);
    var i :| 0 <= i < |steps| && attempts[i] == Granted(Claim(desc, proofs, ctx).value);
    step := steps[i];
  }

  /** A failed claim reports on every attempt, none of which was granted. */
  lemma ClaimReports(desc: Descriptor, proofs: seq<Proof>, pool: seq<Delegation>, ctx: Context)
      returns (selection: Selection, attempts: seq<Attempt>)
    requires Claim(desc, proofs, ctx).Err? && pool == Resolved(proofs, ctx)
    ensures selection == Select(desc, None, Sources(pool, Checks(pool, ctx)))
    ensures attempts == ClaimAttempts(desc, selection.matches, Sessions(Checks(pool, ctx)), ctx)
    ensures forall a :: a in attempts ==> !a.Granted?
    ensures Claim(desc, proofs, ctx).error == Unauthorized(
      selection.errors,
      selection.unknowns,
      Missing(Unresolvable(proofs, ctx)) + Faults(Checks(pool, ctx)) + Withdrawals(attempts),
      Denials(attempts))
  {
    selection := Select(desc, None, Sources(pool, Checks(pool, ctx)));
    attempts := ClaimAttempts(desc, selection.matches, Sessions(Checks(pool, ctx)), ctx);
    FirstGrantedIs(attempts);
  }

  lemma AuthorizePicks(desc: Descriptor, above: Match, pool: seq<Delegation>, ctx: Context) returns (step: Match)
    requires Authorize(desc, above, ctx).Ok? && pool == ProofPool(above.source.delegation, ctx)
    ensures step in Select(desc, Some(above.value), Sources(pool, Checks(pool, ctx))).matches
    ensures Extend(desc, step, AttestationsFor(step.source.delegation.Link(), Sessions(Checks(pool, ctx))), ctx)
         == Granted(Authorize(desc, above, ctx).value)
  {
    var steps := Select(desc, Some(above.value), Sources(pool, Checks(pool, ctx))).matches;
    var attempts := ProofAttempts(desc, steps, Sessions(Checks(pool, ctx)), ctx);
    FirstGrantedIs(attempts);
    var i :| 0 <= i < |steps| && attempts[i] == Granted(Authorize(desc, above, ctx).value);
    step := steps[i];
  }

  lemma {:induction false} ClaimSound(desc: Descriptor, proofs: seq<Proof>, ctx: Context)
    requires Claim(desc, proofs, ctx).Ok?
    ensures Valid(false, desc, None, Claim(desc, proofs, ctx).value, Resolved(proofs, ctx), ctx)
    decreases Top(ProofLinks(proofs)), |proofs| + 1, 1
  {
    var pool := Resolved(proofs, ctx);
    var step := ClaimPicks(desc, proofs, pool, ctx);
    ResolvedRank(proofs, ctx);
    StepsSound(desc, None, step, pool, ctx);
    ExtendSound(desc, None, step, Sessions(Checks(pool, ctx)), pool, ctx);
  }

  lemma {:induction false} AuthorizeSound(desc: Descriptor, above: Match, ctx: Context)
    requires Authorize(desc, above, ctx).Ok?
    ensures Valid(false, desc, Some(above.value), Authorize(desc, above, ctx).value,
      ProofPool(above.source.delegation, ctx), ctx)
    decreases Rank(above.source.delegation.Link()), 0, 1
  {
    var pool := ProofPool(above.source.delegation, ctx);
    var step := AuthorizePicks(desc, above, pool, ctx);
    PoolRank(above.source.delegation, ctx);
    StepsSound(desc, Some(above.value), step, pool, ctx);
    RelevantSuffice(step.source.delegation, Sessions(Checks(pool, ctx)), pool, ctx);
    ExtendSound(desc, Some(above.value), step,
      AttestationsFor(step.source.delegation.Link(), Sessions(Checks(pool, ctx))), pool, ctx);
  }

  /** Every match stems from an accepted delegation of the pool. */
  lemma {:induction false} StepsSound(desc: Descriptor, claimed: Option<Capability>, step: Match,
          pool: seq<Delegation>, ctx: Context)
    requires step in Select(desc, claimed, Sources(pool, Checks(pool, ctx))).matches
    ensures step.source.delegation in pool && Rank(step.source.delegation.Link()) <= Top(Links(pool))
    ensures step.source.capability in step.source.delegation.ucan.Capabilities()
    ensures Answer(desc, claimed, step.source.capability) == Ok(step.value)
    ensures Accepted(false, step.source.delegation, Sessions(Checks(pool, ctx)), pool, ctx)
    decreases Top(Links(pool)), |pool| + 1, 0
  {
    var checks := Checks(pool, ctx);
    var i := MatchFrom(desc, claimed, step, pool, checks);
    if checks[i].value.Some? {
      SessionsHas(checks, checks[i].value.value);
    }
    ValidateSound(pool[i], pool, Sessions(checks), ctx);
    assert Links(pool)[i] == pool[i].Link();
    RankBelowTop(Links(pool), pool[i].Link());
  }

  lemma {:induction false} ExtendSound(desc: Descriptor, claimed: Option<Capability>, step: Match, atts: seq<Auth>,
          pool: seq<Delegation>, ctx: Context)
    requires Extend(desc, step, atts, ctx).Granted?
    requires step.source.delegation in pool
    requires step.source.capability in step.source.delegation.ucan.Capabilities()
    requires Answer(desc, claimed, step.source.capability) == Ok(step.value)
    requires Accepted(false, step.source.delegation, atts, pool, ctx)
    requires claimed.None? ==> !ctx.isRevoked(Extend(desc, step, atts, ctx).auth)
    ensures Valid(false, desc, claimed, Extend(desc, step, atts, ctx).auth, pool, ctx)
    decreases Rank(step.source.delegation.Link()), 0, 2
  {
    if !ctx.canIssue(step.value, step.source.delegation.ucan.issuer) {
      AuthorizeSound(desc, step, ctx);
    }
  }

  /** What validation returns beside its verdict is the session it was accepted through. */
  lemma ValidateSession(d: Delegation, pool: seq<Delegation>, ctx: Context)
    requires Validate(d, pool, ctx).Ok? && Validate(d, pool, ctx).value.Some?
    ensures VerifySession(d, pool, ctx) == Ok(Validate(d, pool, ctx).value.value)
  {
    hide VerifySession;
  }

  lemma ValidateVouches(d: Delegation, pool: seq<Delegation>, ctx: Context)
    requires Validate(d, pool, ctx).Ok?
    ensures ctx.timeBounds(d.ucan) == InTime
    ensures Signed(d, ctx) || (NeedsSession(d, ctx) && VerifySession(d, pool, ctx).Ok?
      && Validate(d, pool, ctx).value == Some(VerifySession(d, pool, ctx).value))
  {
  }

  lemma {:induction false} ValidateSound(d: Delegation, pool: seq<Delegation>, atts: seq<Auth>, ctx: Context)
    requires Validate(d, pool, ctx).Ok?
    requires Validate(d, pool, ctx).value.Some? ==> Validate(d, pool, ctx).value.value in atts
    ensures Accepted(false, d, atts, pool, ctx)
    decreases Top(Links(pool)), |Others(d, pool)| + 1, 4
  {
    ValidateVouches(d, pool, ctx);
    if !Signed(d, ctx) {
      SessionSound(d, pool, ctx);
      var i :| 0 <= i < |atts| && atts[i] == VerifySession(d, pool, ctx).value;
      assert Valid(false, AttestationOf(d.Link(), ctx), None, atts[i], Scope(false, d, pool), ctx);
    }
  }

  lemma {:induction false} SessionSound(d: Delegation, pool: seq<Delegation>, ctx: Context)
    requires VerifySession(d, pool, ctx).Ok?
    ensures Valid(false, AttestationOf(d.Link(), ctx), None,
      VerifySession(d, pool, ctx).value, SessionPool(d, pool), ctx)
    decreases Top(Links(pool)), |Others(d, pool)| + 1, 2
  {
    SessionRank(d, pool);
    ClaimSound(AttestationOf(d.Link(), ctx), AsProofs(SessionPool(d, pool)), ctx);
    ResolvedAsProofs(SessionPool(d, pool), ctx);
  }

  lemma AttestationNames(loose: bool, link: Link, a: Auth, pool: seq<Delegation>, ctx: Context)
    requires Valid(loose, AttestationOf(link, ctx), None, a, pool, ctx)
    ensures a.Capability().nb == Attestation(link)
  {
  }

  /** Attestations may be made on the DID of the authority, and on that of every audience
      that one of its proofs delegates attesting for the authority to. */
  ghost predicate Attestor(with: string, ctx: Context) {
    || with == ctx.authority.did
    || exists p :: p in ctx.authorityProofs
        && p.ucan.first.can == "ucan/attest" && p.ucan.first.with == ctx.authority.did
        && p.ucan.audience == with
  }

  /** An attestation is read as it stands. */
  lemma ParsedAttestation(link: Link, cap: Capability, value: Capability, ctx: Context)
    requires Answer(AttestationOf(link, ctx), None, cap) == Ok(value)
    ensures value == cap && cap.can == "ucan/attest" && Attestor(cap.with, ctx) && cap.nb == Attestation(link)
  {
  }

  /** Dropping attestations made for other delegations loses no justification. */
  lemma RelevantSuffice(d: Delegation, atts: seq<Auth>, pool: seq<Delegation>, ctx: Context)
    requires Accepted(false, d, atts, pool, ctx)
    ensures Accepted(false, d, AttestationsFor(d.Link(), atts), pool, ctx)
  {
    if !Signed(d, ctx) {
      var i :| 0 <= i < |atts| && Valid(false, AttestationOf(d.Link(), ctx), None, atts[i], Scope(false, d, pool), ctx);
      AttestationNames(false, d.Link(), atts[i], Scope(false, d, pool), ctx);
      var relevant := AttestationsFor(d.Link(), atts);
      assert atts[i] in relevant;
      var j :| 0 <= j < |relevant| && relevant[j] == atts[i];
    }
  }

  // ---- Completeness ----

  lemma {:induction false} SourcesFind(pool: seq<Delegation>, checks: seq<Verdict>, i: nat, cap: Capability)
    requires |pool| == |checks| && i < |pool| && checks[i].Ok? && cap in pool[i].ucan.Capabilities()
    ensures Source(cap, pool[i]) in Sources(pool, checks)
  {
    var n := |pool| - 1;
    if i < n {
      SourcesFind(pool[..n], checks[..n], i, cap);
    } else {
      var caps := pool[n].ucan.Capabilities();
      var k :| 0 <= k < |caps| && caps[k] == cap;
      assert SourcesOf(pool[n], caps)[k] == Source(cap, pool[n]);
    }
  }

  /** A valid tree's own match is among those the search tries. */
  lemma MatchFound(loose: bool, desc: Descriptor, claimed: Option<Capability>, a: Auth, pool: seq<Delegation>,
          ctx: Context)
    requires Valid(loose, desc, claimed, a, pool, ctx)
    requires Validate(a.Delegation(), pool, ctx).Ok?
    ensures a.step in Select(desc, claimed, Sources(pool, Checks(pool, ctx))).matches
  {
    var checks := Checks(pool, ctx);
    var i :| 0 <= i < |pool| && pool[i] == a.Delegation();
    SourcesFind(pool, checks, i, a.step.source.capability);
    SelectFinds(desc, claimed, Sources(pool, checks), a.step.source, a.step.value);
  }

  lemma ClaimGrants(desc: Descriptor, step: Match, proofs: seq<Proof>, pool: seq<Delegation>, steps: seq<Match>,
          ctx: Context)
    requires pool == Resolved(proofs, ctx)
    requires steps == Select(desc, None, Sources(pool, Checks(pool, ctx))).matches && step in steps
    requires Review(Extend(desc, step, Sessions(Checks(pool, ctx)), ctx), ctx).Granted?
    ensures Claim(desc, proofs, ctx).Ok?
  {
    var attempts := ClaimAttempts(desc, steps, Sessions(Checks(pool, ctx)), ctx);
    var i :| 0 <= i < |steps| && steps[i] == step;
    assert attempts[i].Granted? && attempts[i] in attempts;
    FirstGrantedIs(attempts);
  }

  lemma AuthorizeGrants(desc: Descriptor, below: Match, step: Match, pool: seq<Delegation>, steps: seq<Match>,
          ctx: Context)
    requires pool == ProofPool(step.source.delegation, ctx)
    requires steps == Select(desc, Some(step.value), Sources(pool, Checks(pool, ctx))).matches && below in steps
    requires Extend(desc, below,
      AttestationsFor(below.source.delegation.Link(), Sessions(Checks(pool, ctx))), ctx).Granted?
    ensures Authorize(desc, step, ctx).Ok?
  {
    var attempts := ProofAttempts(desc, steps, Sessions(Checks(pool, ctx)), ctx);
    var i :| 0 <= i < |steps| && steps[i] == below;
    assert attempts[i].Granted? && attempts[i] in attempts;
    FirstGrantedIs(attempts);
  }

  /** What a tree says at its top. */
  lemma TreeFacts(loose: bool, desc: Descriptor, claimed: Option<Capability>, c: Auth, pool: seq<Delegation>,
          ctx: Context)
    requires Valid(loose, desc, claimed, c, pool, ctx)
    ensures Accepted(loose, c.Delegation(), c.attestations, pool, ctx)
    ensures Answer(desc, claimed, c.step.source.capability) == Ok(c.step.value)
    ensures |c.proofs| <= 1
    ensures c.proofs == [] ==> ctx.canIssue(c.Capability(), c.Delegation().ucan.issuer)
    ensures c.proofs != []
      ==> Valid(loose, desc, Some(c.Capability()), c.proofs[0], ProofPool(c.Delegation(), ctx), ctx)
  {
  }

  lemma TopOfClaim(loose: bool, desc: Descriptor, a: Auth, pool: seq<Delegation>, ctx: Context)
    requires Valid(loose, desc, None, a, pool, ctx)
    ensures !ctx.isRevoked(a) && a.Capability().can == desc.can
  {
  }

  lemma {:induction false} ClaimComplete(desc: Descriptor, a: Auth, proofs: seq<Proof>, ctx: Context)
    requires Orderly(ctx) && RevokedByMatch(desc.can, ctx)
    requires Valid(false, desc, None, a, Resolved(proofs, ctx), ctx)
    ensures Claim(desc, proofs, ctx).Ok?
    decreases a, 1
  {
    TopOfClaim(false, desc, a, Resolved(proofs, ctx), ctx);
    hide Valid, Claim, Select;
    var pool := Resolved(proofs, ctx);
    ExtendComplete(desc, None, a, Sessions(Checks(pool, ctx)), pool, ctx);
    assert !ctx.isRevoked(Extend(desc, a.step, Sessions(Checks(pool, ctx)), ctx).auth);
    var steps := Select(desc, None, Sources(pool, Checks(pool, ctx))).matches;
    ClaimGrants(desc, a.step, proofs, pool, steps, ctx);
  }

  lemma {:induction false} AuthorizeComplete(desc: Descriptor, step: Match, a: Auth, ctx: Context)
    requires Orderly(ctx) && Valid(false, desc, Some(step.value), a, ProofPool(step.source.delegation, ctx), ctx)
    ensures Authorize(desc, step, ctx).Ok?
    decreases a, 1
  {
    var pool := ProofPool(step.source.delegation, ctx);
    var atts := AttestationsFor(a.Delegation().Link(), Sessions(Checks(pool, ctx)));
    ExtendComplete(desc, Some(step.value), a, atts, pool, ctx);
    var steps := Select(desc, Some(step.value), Sources(pool, Checks(pool, ctx))).matches;
    AuthorizeGrants(desc, a.step, step, pool, steps, ctx);
  }

  lemma {:induction false} ExtendComplete(desc: Descriptor, claimed: Option<Capability>, a: Auth, atts: seq<Auth>,
          pool: seq<Delegation>, ctx: Context)
    requires Orderly(ctx) && Valid(false, desc, claimed, a, pool, ctx)
    ensures a.step in Select(desc, claimed, Sources(pool, Checks(pool, ctx))).matches
    ensures Extend(desc, a.step, atts, ctx).Granted?
    decreases a, 0
  {
    ValidateComplete(a.Delegation(), a.attestations, pool, ctx);
    MatchFound(false, desc, claimed, a, pool, ctx);
    if a.proofs != [] {
      AuthorizeComplete(desc, a.step, a.proofs[0], ctx);
    }
  }

  lemma {:induction false} ValidateComplete(d: Delegation, atts: seq<Auth>, pool: seq<Delegation>, ctx: Context)
    requires Orderly(ctx) && Accepted(false, d, atts, pool, ctx)
    ensures Validate(d, pool, ctx).Ok?
    decreases atts, 3
  {
    if !Signed(d, ctx) {
      var i :| 0 <= i < |atts| && Valid(false, AttestationOf(d.Link(), ctx), None, atts[i], Scope(false, d, pool), ctx);
      SessionComplete(d, atts[i], pool, ctx);
    }
  }

  lemma {:induction false} SessionComplete(d: Delegation, a: Auth, pool: seq<Delegation>, ctx: Context)
    requires Orderly(ctx) && Valid(false, AttestationOf(d.Link(), ctx), None, a, SessionPool(d, pool), ctx)
    ensures VerifySession(d, pool, ctx).Ok?
    decreases a, 2
  {
    ResolvedAsProofs(SessionPool(d, pool), ctx);
    ClaimComplete(AttestationOf(d.Link(), ctx), a, AsProofs(SessionPool(d, pool)), ctx);
  }
}
