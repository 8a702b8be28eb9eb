/** What failure reports hold: each list has exactly what went wrong, for the reason it
    is listed under. */
module Reports {
  import opened Graph
  import opened Capabilities
  import opened Validation
  import opened ProofTrees
  import opened ChainTheorems
  import opened Embedding

  // ---- What the lists hold ----

  lemma {:induction false} UnresolvableHas(proofs: seq<Proof>, ctx: Context, l: Link)
    ensures l in Unresolvable(proofs, ctx) <==> Ref(l) in proofs && ctx.ResolveProof(l).None?
  {
    if proofs != [] {
      var n := |proofs| - 1;
      assert proofs == proofs[..n] + [proofs[n]];
      UnresolvableHas(proofs[..n], ctx, l);
    }
  }

  lemma {:induction false} MisalignedHas(d: Delegation, pool: seq<Delegation>, e: ProofError)
    ensures e in MisalignedIn(d, pool)
       <==> e.Misaligned? && e.delegation in pool && e.delegation.ucan.audience != d.ucan.issuer
  {
    if pool != [] {
      var n := |pool| - 1;
      assert pool == pool[..n] + [pool[n]];
      MisalignedHas(d, pool[..n], e);
    }
  }

  lemma {:induction false} FaultsHas(checks: seq<Verdict>, f: InvalidProof)
    ensures f in Faults(checks) <==> Err(f) in checks
  {
    if checks != [] {
      var n := |checks| - 1;
      assert checks == checks[..n] + [checks[n]];
      FaultsHas(checks[..n], f);
    }
  }

  lemma {:induction false} RefusalsHas(pool: seq<Delegation>, checks: seq<Verdict>, e: ProofError)
    requires |pool| == |checks|
    ensures e in Refusals(pool, checks)
       <==> exists i :: 0 <= i < |pool| && checks[i].Err? && e == Refused(pool[i], checks[i].error)
  {
    if pool != [] {
      var n := |pool| - 1;
      RefusalsHas(pool[..n], checks[..n], e);
    }
  }

  lemma {:induction false} WithdrawalsHave(attempts: seq<Attempt>, f: InvalidProof)
    ensures f in Withdrawals(attempts) <==> f.Revoked? && Withdrawn(f.auth) in attempts
  {
    if attempts != [] {
      var n := |attempts| - 1;
      assert attempts == attempts[..n] + [attempts[n]];
      WithdrawalsHave(attempts[..n], f);
    }
  }

  lemma {:induction false} DenialsHave(attempts: seq<Attempt>, c: InvalidClaim)
    ensures c in Denials(attempts) <==> Denied(c) in attempts
  {
    if attempts != [] {
      var n := |attempts| - 1;
      assert attempts == attempts[..n] + [attempts[n]];
      DenialsHave(attempts[..n], c);
    }
  }

  lemma MissingHas(links: seq<Link>, f: InvalidProof)
    ensures f in Missing(links) <==> f.Unavailable? && f.link in links
  {
    if f.Unavailable? && f.link in links {
      var i :| 0 <= i < |links| && links[i] == f.link;
      assert Missing(links)[i] == f;
    }
  }

  lemma UnresolvedHas(links: seq<Link>, e: ProofError)
    ensures e in UnresolvedProofs(links) <==> e.Unresolved? && e.link in links
  {
    if e.Unresolved? && e.link in links {
      var i :| 0 <= i < |links| && links[i] == e.link;
      assert UnresolvedProofs(links)[i] == e;
    }
  }

  lemma CheckedHas(pool: seq<Delegation>, ctx: Context, f: InvalidProof)
    ensures Err(f) in Checks(pool, ctx) <==> exists d :: d in pool && Validate(d, pool, ctx) == Err(f)
  {
    hide Validate;
    var checks := Checks(pool, ctx);
    if d :| d in pool && Validate(d, pool, ctx) == Err(f) {
      var i :| 0 <= i < |pool| && pool[i] == d;
      assert checks[i] == Err(f);
    }
  }

  // ---- Why a delegation is refused ----

  /** Its own session is of no use, and nothing in that failed to be proved. */
  ghost predicate FallsBack(d: Delegation, pool: seq<Delegation>, ctx: Context) {
    NeedsSession(d, ctx) && VerifySession(d, pool, ctx).Err? && VerifySession(d, pool, ctx).error.failed == []
  }

  /** The verifier that the signature of `d` comes down to, if it has one. */
  ghost predicate ComesDownTo(d: Delegation, pool: seq<Delegation>, vfr: Option<Verifier>, ctx: Context) {
    var issuer := d.ucan.issuer;
    if "did:key:" <= issuer then vfr == ctx.parsePrincipal(issuer)
    else if issuer == ctx.authority.did then vfr == Some(ctx.authority)
    else
      && FallsBack(d, pool, ctx) && ctx.resolveDidKey(issuer).Some?
      && match ctx.parsePrincipal(ctx.resolveDidKey(issuer).value)
         case Some(v) => vfr == if "did:key:" <= v.did then Some(Verifier(issuer, v.key)) else None
         case None => vfr == None
  }

  /** The reason given for a refusal is the case. */
  lemma RefusedWhy(d: Delegation, pool: seq<Delegation>, f: InvalidProof, ctx: Context)
    ensures Validate(d, pool, ctx) == Err(f) <==> match f
      case Expired(e) => e == d && ctx.timeBounds(d.ucan) == TooLate
      case NotValidBefore(e) => e == d && ctx.timeBounds(d.ucan) == TooEarly
      case SessionEscalation(e, cause) =>
        && e == d && ctx.timeBounds(d.ucan) == InTime && NeedsSession(d, ctx)
        && VerifySession(d, pool, ctx) == Err(cause) && cause.failed != []
      case UnresolvedKey(did) =>
        && did == d.ucan.issuer && ctx.timeBounds(d.ucan) == InTime
        && FallsBack(d, pool, ctx) && ctx.resolveDidKey(did).None?
      case UnverifiableSignature(e) =>
        && e == d && ctx.timeBounds(d.ucan) == InTime
        && exists vfr :: ComesDownTo(d, pool, vfr, ctx)
            && (vfr.None? || ctx.check(d.ucan, vfr.value.key) == UnknownAlgorithm)
      case InvalidSignature(e) =>
        && e == d && ctx.timeBounds(d.ucan) == InTime
        && exists vfr :: ComesDownTo(d, pool, Some(vfr), ctx)
            && (ctx.check(d.ucan, vfr.key) == Rejected
                || (ctx.check(d.ucan, vfr.key) == Verified && vfr.did != d.ucan.issuer))
      case Unavailable(_) => false
      case Revoked(_) => false
  {
    hide VerifySession;
    if IsKey(d.ucan.issuer) {
      assert ComesDownTo(d, pool, ctx.parsePrincipal(d.ucan.issuer), ctx);
    } else if d.ucan.issuer == ctx.authority.did {
      assert ComesDownTo(d, pool, Some(ctx.authority), ctx);
    } else if ctx.resolveDidKey(d.ucan.issuer).Some? && FallsBack(d, pool, ctx) {
      var v := ctx.parsePrincipal(ctx.resolveDidKey(d.ucan.issuer).value);
      var vfr := if v.Some? && IsKey(v.value.did) then Some(Verifier(d.ucan.issuer, v.value.key)) else None;
      assert ComesDownTo(d, pool, vfr, ctx);
    }
  }

  // ---- What a report says ----

  /** `cap` is a capability of a valid delegation `d` of the pool. */
  ghost predicate Shows(d: Delegation, cap: Capability, pool: seq<Delegation>, ctx: Context) {
    d in pool && Validate(d, pool, ctx).Ok? && cap in d.ucan.Capabilities()
  }

  lemma SourcesShow(pool: seq<Delegation>, ctx: Context, s: Source)
    ensures s in Sources(pool, Checks(pool, ctx)) <==> Shows(s.delegation, s.capability, pool, ctx)
  {
    hide Validate;
    if s in Sources(pool, Checks(pool, ctx)) {
      var i := SourcesFrom(pool, Checks(pool, ctx), s);
    }
    if Shows(s.delegation, s.capability, pool, ctx) {
      var i :| 0 <= i < |pool| && pool[i] == s.delegation;
      SourcesFind(pool, Checks(pool, ctx), i, s.capability);
    }
  }

  /** `step` reads `cap` of `d`, which is shown, as an answer to the claim. */
  ghost predicate Offers(desc: Descriptor, claimed: Option<Capability>, step: Match, pool: seq<Delegation>,
          ctx: Context) {
    && Shows(step.source.delegation, step.source.capability, pool, ctx)
    && Answer(desc, claimed, step.source.capability) == Ok(step.value)
  }

  lemma MatchesStep(desc: Descriptor, claimed: Option<Capability>, step: Match, pool: seq<Delegation>, ctx: Context)
    ensures step in Select(desc, claimed, Sources(pool, Checks(pool, ctx))).matches
       <==> Offers(desc, claimed, step, pool, ctx)
  {
    hide Shows;
    var sources := Sources(pool, Checks(pool, ctx));
    SourcesShow(pool, ctx, step.source);
    if step in Select(desc, claimed, sources).matches {
      SelectFrom(desc, claimed, sources, step);
    }
    if Offers(desc, claimed, step, pool, ctx) {
      SelectFinds(desc, claimed, sources, step.source, step.value);
    }
  }

  lemma MismatchesShown(desc: Descriptor, claimed: Option<Capability>, pool: seq<Delegation>, e: Mismatch, ctx: Context)
    ensures var r := Select(desc, claimed, Sources(pool, Checks(pool, ctx)));
      (if e.Unknown? then e.capability in r.unknowns else e in r.errors)
        <==> exists d, cap :: Shows(d, cap, pool, ctx) && Answer(desc, claimed, cap) == Err(e)
  {
    hide Shows, Answer, Select, Sources;
    var sources := Sources(pool, Checks(pool, ctx));
    SelectReports(desc, claimed, sources, e);
    if s :| s in sources && Answer(desc, claimed, s.capability) == Err(e) {
      SourcesShow(pool, ctx, s);
    }
    if d, cap :| Shows(d, cap, pool, ctx) && Answer(desc, claimed, cap) == Err(e) {
      SourcesShow(pool, ctx, Source(cap, d));
    }
  }

  /** A claim's unknowns are the capabilities shown that are of another ability, and its
      errors those that a reader refuses. */
  lemma ClaimMismatches(desc: Descriptor, proofs: seq<Proof>, e: Mismatch, ctx: Context)
    requires Claim(desc, proofs, ctx).Err?
    ensures var report, pool := Claim(desc, proofs, ctx).error, Resolved(proofs, ctx);
      (if e.Unknown? then e.capability in report.unknowns else e in report.errors)
        <==> exists d, cap :: Shows(d, cap, pool, ctx) && Answer(desc, None, cap) == Err(e)
  {
    var pool := Resolved(proofs, ctx);
    var selection, attempts := ClaimReports(desc, proofs, pool, ctx);
    hide Claim, Shows, Answer, Select, Sources;
    MismatchesShown(desc, None, pool, e, ctx);
  }

  /** A claim reports as invalid the links that nobody resolves, the proofs refused for
      what they are refused, and the chains granted but revoked. */
  lemma ClaimInvalid(desc: Descriptor, proofs: seq<Proof>, f: InvalidProof, ctx: Context)
    requires Claim(desc, proofs, ctx).Err?
    ensures var pool := Resolved(proofs, ctx);
      f in Claim(desc, proofs, ctx).error.invalid <==>
        if f.Unavailable? then Ref(f.link) in proofs && ctx.ResolveProof(f.link).None?
        else if f.Revoked? then
          ctx.isRevoked(f.auth) && exists step ::
            && Offers(desc, None, step, pool, ctx)
            && Extend(desc, step, Sessions(Checks(pool, ctx)), ctx) == Granted(f.auth)
        else exists d :: d in pool && Validate(d, pool, ctx) == Err(f)
  {
    var pool := Resolved(proofs, ctx);
    var selection, attempts := ClaimReports(desc, proofs, pool, ctx);
    hide Claim, Validate, Extend, Offers, Select, Sources, Sessions;
    var missing, faults := Missing(Unresolvable(proofs, ctx)), Faults(Checks(pool, ctx));
    MissingHas(Unresolvable(proofs, ctx), f);
    FaultsHas(Checks(pool, ctx), f);
    CheckedHas(pool, ctx, f);
    WithdrawalsHave(attempts, f);
    if f.Unavailable? {
      UnresolvableHas(proofs, ctx, f.link);
    }
    forall d | d in pool && Validate(d, pool, ctx) == Err(f)
      ensures !f.Unavailable? && !f.Revoked?
    {
      RefusedWhy(d, pool, f, ctx);
    }
    if f.Revoked? {
      WithdrawnIff(desc, pool, selection.matches, f.auth, ctx);
    }
  }

  lemma WithdrawnIff(desc: Descriptor, pool: seq<Delegation>, steps: seq<Match>, a: Auth, ctx: Context)
    requires steps == Select(desc, None, Sources(pool, Checks(pool, ctx))).matches
    ensures var sessions := Sessions(Checks(pool, ctx));
      Withdrawn(a) in ClaimAttempts(desc, steps, sessions, ctx) <==>
        ctx.isRevoked(a) && exists step ::
          Offers(desc, None, step, pool, ctx) && Extend(desc, step, sessions, ctx) == Granted(a)
  {
    hide Validate, Offers, Select, Sources, Sessions;
    var sessions := Sessions(Checks(pool, ctx));
    var attempts := ClaimAttempts(desc, steps, sessions, ctx);
    if Withdrawn(a) in attempts {
      var i :| 0 <= i < |attempts| && attempts[i] == Withdrawn(a);
      NeverWithdrawn(desc, steps[i], sessions, ctx);
      MatchesStep(desc, None, steps[i], pool, ctx);
    }
    if step :|
      && ctx.isRevoked(a) && Offers(desc, None, step, pool, ctx)
      && Extend(desc, step, sessions, ctx) == Granted(a) {
      MatchesStep(desc, None, step, pool, ctx);
      var i :| 0 <= i < |steps| && steps[i] == step;
      assert attempts[i] == Withdrawn(a);
    }
  }

  lemma NeverWithdrawn(desc: Descriptor, step: Match, sessions: seq<Auth>, ctx: Context)
    ensures !Extend(desc, step, sessions, ctx).Withdrawn?
    ensures Extend(desc, step, sessions, ctx).Denied? <==>
      !ctx.canIssue(step.value, step.source.delegation.ucan.issuer) && Authorize(desc, step, ctx).Err?
    ensures Extend(desc, step, sessions, ctx).Denied? ==>
      Extend(desc, step, sessions, ctx).claim == Authorize(desc, step, ctx).error
  {
    hide Authorize;
  }

  /** A match that its issuer may not issue, and that nothing below it proves, for `c`. */
  ghost predicate Fails(desc: Descriptor, step: Match, c: InvalidClaim, ctx: Context) {
    !ctx.canIssue(step.value, step.source.delegation.ucan.issuer) && Authorize(desc, step, ctx) == Err(c)
  }

  lemma DeniedIff(desc: Descriptor, pool: seq<Delegation>, steps: seq<Match>, sessions: seq<Auth>, c: InvalidClaim,
          ctx: Context)
    requires steps == Select(desc, None, Sources(pool, Checks(pool, ctx))).matches
    ensures Denied(c) in ClaimAttempts(desc, steps, sessions, ctx) <==>
      exists step :: Offers(desc, None, step, pool, ctx) && Fails(desc, step, c, ctx)
  {
    hide Authorize, Validate, Extend, Offers, Select, Sources;
    var attempts := ClaimAttempts(desc, steps, sessions, ctx);
    if Denied(c) in attempts {
      var i :| 0 <= i < |attempts| && attempts[i] == Denied(c);
      NeverWithdrawn(desc, steps[i], sessions, ctx);
      MatchesStep(desc, None, steps[i], pool, ctx);
    }
    if step :| Offers(desc, None, step, pool, ctx) && Fails(desc, step, c, ctx) {
      MatchesStep(desc, None, step, pool, ctx);
      var i :| 0 <= i < |steps| && steps[i] == step;
      NeverWithdrawn(desc, step, sessions, ctx);
      assert attempts[i] == Denied(c);
    }
  }

  /** The failed proofs of a claim are those of the matches that nothing proves. */
  lemma ClaimFailed(desc: Descriptor, proofs: seq<Proof>, c: InvalidClaim, ctx: Context)
    requires Claim(desc, proofs, ctx).Err?
    ensures c in Claim(desc, proofs, ctx).error.failed <==>
      exists step :: Offers(desc, None, step, Resolved(proofs, ctx), ctx) && Fails(desc, step, c, ctx)
  {
    var pool := Resolved(proofs, ctx);
    var selection, attempts := ClaimReports(desc, proofs, pool, ctx);
    hide Claim, Offers, Fails, Select, Sources, Sessions, ClaimAttempts;
    DenialsHave(attempts, c);
    DeniedIff(desc, pool, selection.matches, Sessions(Checks(pool, ctx)), c, ctx);
  }

  // ---- Below a match ----

  /** A failed authorization reports on every attempt, none of which was granted. */
  lemma AuthorizeReports(desc: Descriptor, above: Match, pool: seq<Delegation>, ctx: Context)
      returns (selection: Selection, attempts: seq<Attempt>)
    requires Authorize(desc, above, ctx).Err? && pool == ProofPool(above.source.delegation, ctx)
    ensures selection == Select(desc, Some(above.value), Sources(pool, Checks(pool, ctx)))
    ensures attempts == ProofAttempts(desc, selection.matches, Sessions(Checks(pool, ctx)), ctx)
    ensures forall a :: a in attempts ==> !a.Granted?
    ensures Authorize(desc, above, ctx).error == InvalidClaim(
      above,
      selection.errors,
      selection.unknowns,
      UnresolvedProofs(Unresolvable(ProofsOfView(above.source.delegation), ctx))
        + MisalignedIn(above.source.delegation, Resolved(ProofsOfView(above.source.delegation), ctx))
        + Refusals(pool, Checks(pool, ctx)),
      Denials(attempts))
  {
    selection := Select(desc, Some(above.value), Sources(pool, Checks(pool, ctx)));
    attempts := ProofAttempts(desc, selection.matches, Sessions(Checks(pool, ctx)), ctx);
    FirstGrantedIs(attempts);
  }

  /** The capabilities that do not answer the claimed one, each for its reason. */
  lemma AuthorizeMismatches(desc: Descriptor, above: Match, e: Mismatch, ctx: Context)
    requires Authorize(desc, above, ctx).Err?
    ensures var report, pool := Authorize(desc, above, ctx).error, ProofPool(above.source.delegation, ctx);
      && report.step == above
      && ((if e.Unknown? then e.capability in report.unknowns else e in report.errors)
            <==> exists d, cap :: Shows(d, cap, pool, ctx) && Answer(desc, Some(above.value), cap) == Err(e))
  {
    var pool := ProofPool(above.source.delegation, ctx);
    var selection, attempts := AuthorizeReports(desc, above, pool, ctx);
    hide Authorize, Shows, Answer, Select, Sources, ProofPool;
    MismatchesShown(desc, Some(above.value), pool, e, ctx);
  }

  lemma ViewUnresolved(d: Delegation, l: Link, ctx: Context)
    ensures l in Unresolvable(ProofsOfView(d), ctx) <==> l in d.ucan.proofs && Resolve(d, l, ctx).None?
  {
    var proofs := ProofsOfView(d);
    UnresolvableHas(proofs, ctx, l);
    if Ref(l) in proofs {
      var i :| 0 <= i < |proofs| && proofs[i] == Ref(l);
      assert d.ucan.proofs[i] == l;
    }
    if l in d.ucan.proofs && Resolve(d, l, ctx).None? {
      var i :| 0 <= i < |d.ucan.proofs| && d.ucan.proofs[i] == l;
      assert proofs[i] == Ref(l);
    }
  }

  lemma ViewResolved(d: Delegation, p: Delegation, ctx: Context)
    ensures p in Resolved(ProofsOfView(d), ctx) <==> p.Link() in d.ucan.proofs && Resolve(d, p.Link(), ctx) == Some(p)
  {
    var proofs := ProofsOfView(d);
    ResolvedHas(proofs, ctx, p);
    if q :| q in proofs && ResolveOne(q, ctx) == Some(p) {
      var i :| 0 <= i < |proofs| && proofs[i] == q;
      assert d.ucan.proofs[i] == p.Link();
    }
    if p.Link() in d.ucan.proofs && Resolve(d, p.Link(), ctx) == Some(p) {
      var i :| 0 <= i < |d.ucan.proofs| && d.ucan.proofs[i] == p.Link();
      assert proofs[i] in proofs && ResolveOne(proofs[i], ctx) == Some(p);
    }
  }

  /** The proofs cited that do not resolve, that do not delegate to the issuer, and that
      are refused among the others, each for what it is. */
  lemma AuthorizeProofErrors(desc: Descriptor, above: Match, e: ProofError, ctx: Context)
    requires Authorize(desc, above, ctx).Err?
    ensures var d := above.source.delegation;
      e in Authorize(desc, above, ctx).error.proofErrors <==> match e
        case Unresolved(l) => l in d.ucan.proofs && Resolve(d, l, ctx).None?
        case Misaligned(p) =>
          && p.Link() in d.ucan.proofs && Resolve(d, p.Link(), ctx) == Some(p)
          && p.ucan.audience != d.ucan.issuer
        case Refused(p, cause) =>
          && p.Link() in d.ucan.proofs && Resolve(d, p.Link(), ctx) == Some(p)
          && p.ucan.audience == d.ucan.issuer && Validate(p, ProofPool(d, ctx), ctx) == Err(cause)
  {
    var d := above.source.delegation;
    var pool := ProofPool(d, ctx);
    var selection, attempts := AuthorizeReports(desc, above, pool, ctx);
    hide Authorize, Validate, Select, Sources, Resolve, ProofPool, Resolved, Unresolvable, ProofsOfView;
    UnresolvedHas(Unresolvable(ProofsOfView(d), ctx), e);
    MisalignedHas(d, Resolved(ProofsOfView(d), ctx), e);
    RefusalsHas(pool, Checks(pool, ctx), e);
    match e
    case Unresolved(l) => ViewUnresolved(d, l, ctx);
    case Misaligned(p) => ViewResolved(d, p, ctx);
    case Refused(p, cause) => RefusedInPool(d, p, cause, ctx);
  }

  lemma RefusedInPool(d: Delegation, p: Delegation, cause: InvalidProof, ctx: Context)
    ensures var pool := ProofPool(d, ctx);
      (exists i :: 0 <= i < |pool| && Checks(pool, ctx)[i].Err?
         && Refused(p, cause) == Refused(pool[i], Checks(pool, ctx)[i].error))
      <==> p.Link() in d.ucan.proofs && Resolve(d, p.Link(), ctx) == Some(p)
            && p.ucan.audience == d.ucan.issuer && Validate(p, pool, ctx) == Err(cause)
  {
    hide Validate, Resolve;
    var pool := ProofPool(d, ctx);
    PoolIsUsable(d, p, ctx);
    if p in pool && Validate(p, pool, ctx) == Err(cause) {
      var i :| 0 <= i < |pool| && pool[i] == p;
      assert Checks(pool, ctx)[i].Err?;
    }
  }

  lemma DeniedBelowIff(desc: Descriptor, value: Capability, pool: seq<Delegation>, steps: seq<Match>,
          sessions: seq<Auth>, c: InvalidClaim, ctx: Context)
    requires steps == Select(desc, Some(value), Sources(pool, Checks(pool, ctx))).matches
    ensures Denied(c) in ProofAttempts(desc, steps, sessions, ctx) <==>
      exists step :: Offers(desc, Some(value), step, pool, ctx) && Fails(desc, step, c, ctx)
  {
    hide Authorize, Validate, Extend, Offers, Select, Sources, AttestationsFor;
    var attempts := ProofAttempts(desc, steps, sessions, ctx);
    if Denied(c) in attempts {
      var i :| 0 <= i < |attempts| && attempts[i] == Denied(c);
      NeverWithdrawn(desc, steps[i], AttestationsFor(steps[i].source.delegation.Link(), sessions), ctx);
      MatchesStep(desc, Some(value), steps[i], pool, ctx);
    }
    if step :| Offers(desc, Some(value), step, pool, ctx) && Fails(desc, step, c, ctx) {
      MatchesStep(desc, Some(value), step, pool, ctx);
      var i :| 0 <= i < |steps| && steps[i] == step;
      NeverWithdrawn(desc, step, AttestationsFor(step.source.delegation.Link(), sessions), ctx);
      assert attempts[i] == Denied(c);
    }
  }

  /** The failed proofs are those of the matches that nothing proves. */
  lemma AuthorizeFailed(desc: Descriptor, above: Match, c: InvalidClaim, ctx: Context)
    requires Authorize(desc, above, ctx).Err?
    ensures var pool := ProofPool(above.source.delegation, ctx);
      c in Authorize(desc, above, ctx).error.failed <==>
        exists step :: Offers(desc, Some(above.value), step, pool, ctx) && Fails(desc, step, c, ctx)
  {
    var pool := ProofPool(above.source.delegation, ctx);
    var selection, attempts := AuthorizeReports(desc, above, pool, ctx);
    hide Authorize, Offers, Fails, Select, Sources, Sessions, ProofPool, ProofAttempts;
    DenialsHave(attempts, c);
    DeniedBelowIff(desc, above.value, pool, selection.matches, Sessions(Checks(pool, ctx)), c, ctx);
  }

  lemma {:induction false} AlignedSplit(d: Delegation, pool: seq<Delegation>)
    ensures |pool| == |Aligned(d, pool)| + |MisalignedIn(d, pool)|
  {
    if pool != [] {
      AlignedSplit(d, pool[..|pool| - 1]);
    }
  }

  lemma {:induction false} RefusalsCount(pool: seq<Delegation>, checks: seq<Verdict>)
    requires |pool| == |checks|
    ensures |Refusals(pool, checks)| == |Faults(checks)|
  {
    if pool != [] {
      var n := |pool| - 1;
      RefusalsCount(pool[..n], checks[..n]);
    }
  }

  /** Nothing is counted twice or forgotten: each proof cited is reported or was found
      valid, and each capability of the valid ones is unknown, malformed, escalated, or
      failed to be proved. */
  lemma AuthorizeReportComplete(desc: Descriptor, above: Match, ctx: Context)
    requires Authorize(desc, above, ctx).Err?
    ensures var report := Authorize(desc, above, ctx).error;
      var d := above.source.delegation; var checks := Checks(ProofPool(d, ctx), ctx);
      && |d.ucan.proofs| == |report.proofErrors| + NumValid(checks)
      && NumCapabilities(ProofPool(d, ctx), checks) == |report.unknowns| + |report.errors| + |report.failed|
  {
    var d := above.source.delegation;
    var pool := ProofPool(d, ctx);
    var selection, attempts := AuthorizeReports(desc, above, pool, ctx);
    hide Authorize, Validate, Extend;
    AlignedSplit(d, Resolved(ProofsOfView(d), ctx));
    RefusalsCount(pool, Checks(pool, ctx));
    ChecksSplit(pool, Checks(pool, ctx));
    SelectSplits(desc, Some(above.value), Sources(pool, Checks(pool, ctx)));
    AttemptsSplit(attempts);
    forall i | 0 <= i < |attempts|
      ensures !attempts[i].Withdrawn?
    {
      var step := selection.matches[i];
      NeverWithdrawn(desc, step, AttestationsFor(step.source.delegation.Link(), Sessions(Checks(pool, ctx))), ctx);
    }
    NoneWithdrawn(attempts);
  }

  lemma {:induction false} NoneWithdrawn(attempts: seq<Attempt>)
    requires forall i :: 0 <= i < |attempts| ==> !attempts[i].Withdrawn?
    ensures Withdrawals(attempts) == []
  {
    if attempts != [] {
      NoneWithdrawn(attempts[..|attempts| - 1]);
    }
  }
}
