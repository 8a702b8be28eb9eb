/** What the validator promises: it accepts exactly what can be proved, it never loses
    a chain when it is given more, and what it accepts is rooted in the right authority. */
module ValidatorTheorems {
  import opened Graph
  import opened Capabilities
  import opened Validation
  import opened ProofTrees
  import opened SessionTrees

  // ---- The search finds a proof exactly when there is one ----

  /** Some tree proves a capability of `desc`, answering `claimed`, from `pool`; its
      sessions may use any attestation of the pool. */
  ghost predicate Provable(desc: Descriptor, claimed: Option<Capability>, pool: seq<Delegation>, ctx: Context) {
    exists a :: Valid(true, desc, claimed, a, pool, ctx)
  }

  lemma ClaimIffProvable(desc: Descriptor, proofs: seq<Proof>, ctx: Context)
    requires Orderly(ctx) && RevokedByMatch(desc.can, ctx)
    ensures Claim(desc, proofs, ctx).Ok? <==> Provable(desc, None, Resolved(proofs, ctx), ctx)
  {
    var pool := Resolved(proofs, ctx);
    if Claim(desc, proofs, ctx).Ok? {
      ClaimSound(desc, proofs, ctx);
      ValidGrows(false, true, desc, None, Claim(desc, proofs, ctx).value, pool, pool, ctx);
    }
    if a :| Valid(true, desc, None, a, pool, ctx) {
      var b := LooseToStrict(desc, None, a, pool, ctx);
      ClaimComplete(desc, b, proofs, ctx);
    }
  }

  lemma AuthorizeIffProvable(desc: Descriptor, step: Match, ctx: Context)
    requires Orderly(ctx)
    ensures Authorize(desc, step, ctx).Ok?
       <==> Provable(desc, Some(step.value), ProofPool(step.source.delegation, ctx), ctx)
  {
    var pool := ProofPool(step.source.delegation, ctx);
    if Authorize(desc, step, ctx).Ok? {
      AuthorizeSound(desc, step, ctx);
      ValidGrows(false, true, desc, Some(step.value), Authorize(desc, step, ctx).value, pool, pool, ctx);
    }
    if a :| Valid(true, desc, Some(step.value), a, pool, ctx) {
      var b := LooseToStrict(desc, Some(step.value), a, pool, ctx);
      AuthorizeComplete(desc, step, b, ctx);
    }
  }

  // ---- More proofs never hurt ----

  lemma ClaimMonotone(desc: Descriptor, proofs: seq<Proof>, proofs': seq<Proof>, ctx: Context)
    requires Orderly(ctx) && RevokedByMatch(desc.can, ctx) && Claim(desc, proofs, ctx).Ok?
    requires forall p :: p in proofs ==> p in proofs'
    ensures Claim(desc, proofs', ctx).Ok?
  {
    ClaimSound(desc, proofs, ctx);
    var a := Claim(desc, proofs, ctx).value;
    ResolvedMore(proofs, proofs', ctx);
    ValidGrows(false, false, desc, None, a, Resolved(proofs, ctx), Resolved(proofs', ctx), ctx);
    ClaimComplete(desc, a, proofs', ctx);
  }

  /** The same value claimed through a delegation that shows the same views and more. */
  lemma AuthorizeGrows(desc: Descriptor, step: Match, step': Match, ctx: Context)
    requires Orderly(ctx) && Authorize(desc, step, ctx).Ok?
    requires step.value == step'.value
    requires var d, d' := step.source.delegation, step'.source.delegation;
      && d.ucan.issuer == d'.ucan.issuer
      && forall p :: p in ProofsOfView(d) ==> p in ProofsOfView(d')
    ensures Authorize(desc, step', ctx).Ok?
  {
    AuthorizeSound(desc, step, ctx);
    var a := Authorize(desc, step, ctx).value;
    var pool, pool' := ProofPool(step.source.delegation, ctx), ProofPool(step'.source.delegation, ctx);
    ResolvedMore(ProofsOfView(step.source.delegation), ProofsOfView(step'.source.delegation), ctx);
    ValidGrows(false, false, desc, Some(step.value), a, pool, pool', ctx);
    AuthorizeComplete(desc, step', a, ctx);
  }

  // ---- When DID keys resolve ----

  /** A valid attestation in the session pool of `d` names it. */
  ghost predicate Named(d: Delegation, pool: seq<Delegation>, ctx: Context) {
    exists e, cap :: NamedBy(d, e, cap, SessionPool(d, pool), ctx)
  }

  ghost predicate NamedBy(d: Delegation, e: Delegation, cap: Capability, session: seq<Delegation>, ctx: Context) {
    && e in session && Validate(e, session, ctx).Ok?
    && cap in e.ucan.Capabilities()
    && cap.can == "ucan/attest" && Attestor(cap.with, ctx) && cap.nb == Attestation(d.Link())
  }

  lemma {:induction false} DenialsEmpty(attempts: seq<Attempt>)
    ensures Denials(attempts) == [] <==> forall a :: a in attempts ==> !a.Denied?
  {
    if attempts != [] {
      var n := |attempts| - 1;
      assert attempts == attempts[..n] + [attempts[n]];
      DenialsEmpty(attempts[..n]);
    }
  }

  lemma NotWithdrawn(attempt: Attempt, desc: Descriptor, step: Match, sessions: seq<Auth>, ctx: Context)
    requires Unrevoked(ctx) && attempt == Review(Extend(desc, step, sessions, ctx), ctx)
    ensures !attempt.Withdrawn?
  {
  }

  /** With nothing revoked, a failed claim reports a failed proof exactly when some
      capability matched. */
  lemma FailedIffMatched(desc: Descriptor, proofs: seq<Proof>, pool: seq<Delegation>, ctx: Context)
    requires Unrevoked(ctx) && Claim(desc, proofs, ctx).Err? && pool == Resolved(proofs, ctx)
    ensures Claim(desc, proofs, ctx).error.failed == []
       <==> Select(desc, None, Sources(pool, Checks(pool, ctx))).matches == []
  {
    var selection, attempts := ClaimReports(desc, proofs, pool, ctx);
    DenialsEmpty(attempts);
    if selection.matches != [] {
      assert attempts[0] in attempts;
      NotWithdrawn(attempts[0], desc, selection.matches[0], Sessions(Checks(pool, ctx)), ctx);
    }
  }

  lemma MatchedIffNamed(d: Delegation, session: seq<Delegation>, steps: seq<Match>, ctx: Context)
    requires steps == Select(AttestationOf(d.Link(), ctx), None, Sources(session, Checks(session, ctx))).matches
    ensures steps != [] <==> exists e, cap :: NamedBy(d, e, cap, session, ctx)
  {
    if steps != [] {
      var i := MatchFrom(AttestationOf(d.Link(), ctx), None, steps[0], session, Checks(session, ctx));
      assert NamedBy(d, steps[0].source.delegation, steps[0].source.capability, session, ctx);
    }
    if e, cap :| NamedBy(d, e, cap, session, ctx) {
      NamedMatches(d, e, cap, session, ctx);
    }
  }

  lemma NamedMatches(d: Delegation, e: Delegation, cap: Capability, session: seq<Delegation>, ctx: Context)
    requires NamedBy(d, e, cap, session, ctx)
    ensures Match(Source(cap, e), cap)
      in Select(AttestationOf(d.Link(), ctx), None, Sources(session, Checks(session, ctx))).matches
  {
    var i :| 0 <= i < |session| && session[i] == e;
    SourcesFind(session, Checks(session, ctx), i, cap);
    SelectFinds(AttestationOf(d.Link(), ctx), None, Sources(session, Checks(session, ctx)), Source(cap, e), cap);
  }

  /** The key of a resolved DID counts only while no valid attestation in the pool
      names the delegation: one that does, and fails, closes the fallback. */
  lemma FallbackIff(d: Delegation, pool: seq<Delegation>, ctx: Context)
    requires Unrevoked(ctx) && NeedsSession(d, ctx) && ctx.timeBounds(d.ucan) == InTime
    ensures Validate(d, pool, ctx).Ok? <==>
      VerifySession(d, pool, ctx).Ok? || (VerifyResolvedKey(d, ctx).Ok? && !Named(d, pool, ctx))
  {
    var session := SessionPool(d, pool);
    var desc := AttestationOf(d.Link(), ctx);
    ResolvedAsProofs(session, ctx);
    var steps := Select(desc, None, Sources(session, Checks(session, ctx))).matches;
    MatchedIffNamed(d, session, steps, ctx);
    if VerifySession(d, pool, ctx).Err? {
      FailedIffMatched(desc, AsProofs(session), session, ctx);
    }
  }
}
