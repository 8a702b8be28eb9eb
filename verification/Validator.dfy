/** The validator's own loops (validator/lib.go), proved to compute what `Validation`
    says. They stop at the first chain that is granted and collect failures on the way. */
module Validator {
  import opened Graph
  import opened Capabilities
  import Rules = Validation
  import opened Validation

  lemma NothingResolved(ctx: Context)
    ensures Resolved([], ctx) == [] && Unresolvable([], ctx) == []
  {
  }

  lemma ResolvedSnoc(proofs: seq<Proof>, i: nat, ctx: Context)
    requires i < |proofs|
    ensures Resolved(proofs[..i + 1], ctx) == Resolved(proofs[..i], ctx)
      + (if ResolveOne(proofs[i], ctx).Some? then [ResolveOne(proofs[i], ctx).value] else [])
    ensures Unresolvable(proofs[..i + 1], ctx) == Unresolvable(proofs[..i], ctx)
      + (if ResolveOne(proofs[i], ctx).None? then [proofs[i].Link()] else [])
  {
    assert proofs[..i + 1][..i] == proofs[..i];
  }

  method ResolveProofs(proofs: seq<Proof>, ctx: Context) returns (dels: seq<Delegation>, errs: seq<Link>)
    ensures dels == Resolved(proofs, ctx) && errs == Unresolvable(proofs, ctx)
  {
    hide Resolved, Unresolvable;
    dels, errs := [], [];
    NothingResolved(ctx);
    for i := 0 to |proofs|
      invariant dels == Resolved(proofs[..i], ctx) && errs == Unresolvable(proofs[..i], ctx)
    {
      ResolvedSnoc(proofs, i, ctx);
      var d := if proofs[i].Full? then Some(proofs[i].delegation) else ctx.ResolveProof(proofs[i].link);
      if d.Some? {
        dels := dels + [d.value];
      } else {
        errs := errs + [proofs[i].Link()];
      }
    }
    assert proofs[..|proofs|] == proofs;
  }

  /** The two `Select`s of validator/capability.go, by what is claimed. */
  method SelectSources(desc: Descriptor, claimed: Option<Capability>, sources: seq<Source>) returns (r: Selection)
    ensures r == Select(desc, claimed, sources)
  {
    var matches, errors, unknowns := [], [], [];
    for i := 0 to |sources|
      invariant Selection(matches, errors, unknowns) == Select(desc, claimed, sources[..i])
    {
      assert sources[..i + 1][..i] == sources[..i];
      match Answer(desc, claimed, sources[i].capability) {
        case Ok(value) => matches := matches + [Match(sources[i], value)];
        case Err(Unknown(cap)) => unknowns := unknowns + [cap];
        case Err(e) => errors := errors + [e];
      }
    }
    assert sources[..|sources|] == sources;
    r := Selection(matches, errors, unknowns);
  }

  method Relevant(link: Link, attestations: seq<Auth>) returns (r: seq<Auth>)
    ensures r == AttestationsFor(link, attestations)
  {
    r := [];
    for i := 0 to |attestations|
      invariant r == AttestationsFor(link, attestations[..i])
    {
      assert attestations[..i + 1][..i] == attestations[..i];
      if attestations[i].Capability().nb == Attestation(link) {
        r := r + [attestations[i]];
      }
    }
    assert attestations[..|attestations|] == attestations;
  }

  method Validate(d: Delegation, pool: seq<Delegation>, ctx: Context) returns (r: Verdict)
    ensures r == Rules.Validate(d, pool, ctx)
    decreases Top(Links(pool)), |Others(d, pool)| + 1, 4
  {
    match ctx.timeBounds(d.ucan) {
      case TooLate => r := Err(Expired(d));
      case TooEarly => r := Err(NotValidBefore(d));
      case InTime => r := VerifyAuthorization(d, pool, ctx);
    }
  }

  method VerifyAuthorization(d: Delegation, pool: seq<Delegation>, ctx: Context) returns (r: Verdict)
    ensures r == Rules.VerifyAuthorization(d, pool, ctx)
    decreases Top(Links(pool)), |Others(d, pool)| + 1, 3
  {
    if IsKey(d.ucan.issuer) {
      var vfr := ctx.parsePrincipal(d.ucan.issuer);
      return if vfr.None? then Err(UnverifiableSignature(d)) else VerifySignature(d, vfr.value, ctx);
    }
    if d.ucan.issuer == ctx.authority.did {
      return VerifySignature(d, ctx.authority, ctx);
    }
    var session := VerifySession(d, pool, ctx);
    if session.Ok? {
      return Ok(Some(session.value));
    }
    if session.error.failed != [] {
      return Err(SessionEscalation(d, session.error));
    }
    return VerifyResolvedKey(d, ctx);
  }

  method VerifySession(d: Delegation, pool: seq<Delegation>, ctx: Context) returns (r: Result<Auth, Unauthorized>)
    ensures r == Rules.VerifySession(d, pool, ctx)
    decreases Top(Links(pool)), |Others(d, pool)| + 1, 2
  {
    var resources := AttestationResources(ctx);
    var session := SessionProofs(d, pool);
    SessionRank(d, pool);
    r := Claim(AttestationFor(d.Link(), resources), session, ctx);
  }

  /** Attestations are recognized from the authority and whoever it authorized to attest. */
  method AttestationResources(ctx: Context) returns (r: seq<string>)
    ensures r == AttestedOn(ctx)
  {
    var proofs, authority := ctx.authorityProofs, ctx.authority.did;
    r := [];
    for i := 0 to |proofs|
      invariant r == Attestors(authority, proofs[..i])
    {
      assert proofs[..i + 1][..i] == proofs[..i];
      if proofs[i].ucan.first.can == "ucan/attest" && proofs[i].ucan.first.with == authority {
        r := r + [proofs[i].ucan.audience];
      }
    }
    assert proofs[..|proofs|] == proofs;
    r := r + [authority];
  }

  /** Only attestations, and never the delegation being verified. */
  method SessionProofs(d: Delegation, pool: seq<Delegation>) returns (r: seq<Proof>)
    ensures r == AsProofs(SessionPool(d, pool))
  {
    hide SessionPool, AsProofs;
    r := [];
    NoSession(d);
    for i := 0 to |pool|
      invariant r == AsProofs(SessionPool(d, pool[..i]))
    {
      assert pool[..i + 1] == pool[..i] + [pool[i]];
      SessionPoolSnoc(d, pool[..i], pool[i]);
      if pool[i].Link() == d.Link() {
        continue;
      }
      if pool[i].ucan.first.can == "ucan/attest" {
        AsProofsSnoc(SessionPool(d, pool[..i]), pool[i]);
        r := r + [Full(pool[i])];
      }
    }
    assert pool[..|pool|] == pool;
  }

  lemma NoSession(d: Delegation)
    ensures AsProofs(SessionPool(d, [])) == []
  {
  }

  lemma AsProofsSnoc(ds: seq<Delegation>, d: Delegation)
    ensures AsProofs(ds + [d]) == AsProofs(ds) + [Full(d)]
  {
  }

  // ---- Settling a list of attempts ----

  lemma {:induction false} FirstGrantedAt(attempts: seq<Attempt>, i: nat)
    requires i < |attempts| && attempts[i].Granted?
    requires forall j :: 0 <= j < i ==> !attempts[j].Granted?
    ensures FirstGranted(attempts) == Some(attempts[i].auth)
  {
    if i > 0 {
      FirstGrantedAt(attempts[1..], i - 1);
    }
  }

  lemma {:induction false} NoneGranted(attempts: seq<Attempt>)
    requires forall j :: 0 <= j < |attempts| ==> !attempts[j].Granted?
    ensures FirstGranted(attempts) == None
  {
    if attempts != [] {
      NoneGranted(attempts[1..]);
    }
  }

  /** What a claim returns once every match has been tried. */
  ghost function Settled(selection: Selection, reported: seq<InvalidProof>,
          attempts: seq<Attempt>): Result<Auth, Unauthorized> {
    if FirstGranted(attempts).Some? then Ok(FirstGranted(attempts).value)
    else Err(Unauthorized(selection.errors, selection.unknowns, reported + Withdrawals(attempts), Denials(attempts)))
  }

  lemma ClaimSettles(desc: Descriptor, proofs: seq<Proof>, pool: seq<Delegation>, selection: Selection, ctx: Context)
    requires pool == Resolved(proofs, ctx) && selection == Select(desc, None, Sources(pool, Checks(pool, ctx)))
    ensures Rules.Claim(desc, proofs, ctx) == Settled(selection,
      Missing(Unresolvable(proofs, ctx)) + Faults(Checks(pool, ctx)),
      ClaimAttempts(desc, selection.matches, Sessions(Checks(pool, ctx)), ctx))
  {
  }

  ghost function SettledBelow(step: Match, selection: Selection, errors: seq<ProofError>,
          attempts: seq<Attempt>): Result<Auth, InvalidClaim> {
    if FirstGranted(attempts).Some? then Ok(FirstGranted(attempts).value)
    else Err(InvalidClaim(step, selection.errors, selection.unknowns, errors, Denials(attempts)))
  }

  ghost function SourceErrors(d: Delegation, ctx: Context): seq<ProofError> {
    UnresolvedProofs(Unresolvable(ProofsOfView(d), ctx))
    + MisalignedIn(d, Resolved(ProofsOfView(d), ctx))
    + Refusals(ProofPool(d, ctx), Checks(ProofPool(d, ctx), ctx))
  }

  lemma AuthorizeSettles(desc: Descriptor, step: Match, pool: seq<Delegation>, selection: Selection, ctx: Context)
    requires pool == ProofPool(step.source.delegation, ctx)
    requires selection == Select(desc, Some(step.value), Sources(pool, Checks(pool, ctx)))
    ensures Rules.Authorize(desc, step, ctx) == SettledBelow(step, selection,
      SourceErrors(step.source.delegation, ctx),
      ProofAttempts(desc, selection.matches, Sessions(Checks(pool, ctx)), ctx))
  {
  }

  lemma NoAttempts()
    ensures Withdrawals([]) == [] && Denials([]) == []
  {
  }

  lemma NoChecks()
    ensures Sources([], []) == [] && Sessions([]) == [] && Faults([]) == [] && Refusals([], []) == []
  {
  }

  lemma AttemptsSnoc(attempts: seq<Attempt>, i: nat)
    requires i < |attempts|
    ensures Withdrawals(attempts[..i + 1])
         == Withdrawals(attempts[..i]) + (if attempts[i].Withdrawn? then [Revoked(attempts[i].auth)] else [])
    ensures Denials(attempts[..i + 1])
         == Denials(attempts[..i]) + (if attempts[i].Denied? then [attempts[i].claim] else [])
  {
    assert attempts[..i + 1][..i] == attempts[..i];
  }

  lemma ChecksSnoc(pool: seq<Delegation>, checks: seq<Verdict>, i: nat)
    requires |pool| == |checks| && i < |pool|
    ensures Sources(pool[..i + 1], checks[..i + 1])
         == Sources(pool[..i], checks[..i])
            + (if checks[i].Ok? then SourcesOf(pool[i], pool[i].ucan.Capabilities()) else [])
    ensures Sessions(checks[..i + 1])
         == Sessions(checks[..i]) + (if checks[i].Ok? && checks[i].value.Some? then [checks[i].value.value] else [])
    ensures Faults(checks[..i + 1]) == Faults(checks[..i]) + (if checks[i].Err? then [checks[i].error] else [])
    ensures Refusals(pool[..i + 1], checks[..i + 1])
         == Refusals(pool[..i], checks[..i]) + (if checks[i].Err? then [Refused(pool[i], checks[i].error)] else [])
  {
    assert pool[..i + 1][..i] == pool[..i] && checks[..i + 1][..i] == checks[..i];
  }

  // ---- The search ----

  method Claim(desc: Descriptor, proofs: seq<Proof>, ctx: Context) returns (r: Result<Auth, Unauthorized>)
    ensures r == Rules.Claim(desc, proofs, ctx)
    decreases Top(ProofLinks(proofs)), |proofs| + 1, 1
  {
    hide Rules.Validate, Sources, Sessions, Faults, Rank, Top, Others;
    NoChecks();
    var pool, missing := ResolveProofs(proofs, ctx);
    ResolvedRank(proofs, ctx);
    ghost var checks := Checks(pool, ctx);
    var sources, sessions, faults := [], [], [];
    for i := 0 to |pool|
      invariant sources == Sources(pool[..i], checks[..i])
      invariant sessions == Sessions(checks[..i]) && faults == Faults(checks[..i])
    {
      var verdict := Validate(pool[i], pool, ctx);
      ChecksSnoc(pool, checks, i);
      if verdict.Err? {
        faults := faults + [verdict.error];
        continue;
      }
      if verdict.value.Some? {
        sessions := sessions + [verdict.value.value];
      }
      sources := sources + SourcesOf(pool[i], pool[i].ucan.Capabilities());
    }
    assert pool[..|pool|] == pool && checks[..|pool|] == checks;
    var selection := SelectSources(desc, None, sources);
    var invalid := Missing(missing) + faults;
    MatchRanks(desc, None, pool, checks);
    r := TryMatches(desc, selection, sessions, invalid, ctx);
    ClaimSettles(desc, proofs, pool, selection, ctx);
  }

  /** Looks for a match that is granted and not revoked, first match first. */
  method TryMatches(desc: Descriptor, selection: Selection, sessions: seq<Auth>, reported: seq<InvalidProof>,
          ctx: Context)
      returns (r: Result<Auth, Unauthorized>)
    ensures r == Settled(selection, reported, ClaimAttempts(desc, selection.matches, sessions, ctx))
    decreases Top(StepLinks(selection.matches)), 0, 4
  {
    hide Extend, Withdrawals, Denials, FirstGranted, Rank, Top;
    NoAttempts();
    var steps := selection.matches;
    ghost var attempts := ClaimAttempts(desc, steps, sessions, ctx);
    RanksBelowTop(StepLinks(steps));
    var invalid, failed := reported, [];
    for i := 0 to |steps|
      invariant invalid == reported + Withdrawals(attempts[..i]) && failed == Denials(attempts[..i])
      invariant forall j :: 0 <= j < i ==> !attempts[j].Granted?
    {
      AttemptsSnoc(attempts, i);
      var found := Complete(desc, steps[i], sessions, ctx);
      var attempt := Review(found, ctx);
      assert attempt == attempts[i];
      if attempt.Granted? {
        FirstGrantedAt(attempts, i);
        return Ok(attempt.auth);
      }
      if attempt.Withdrawn? {
        invalid := invalid + [Revoked(attempt.auth)];
      } else {
        failed := failed + [attempt.claim];
      }
    }
    assert attempts[..|steps|] == attempts;
    NoneGranted(attempts);
    r := Err(Unauthorized(selection.errors, selection.unknowns, invalid, failed));
  }

  /** One match: issued as it stands, or authorized by the proofs of its delegation. */
  method Complete(desc: Descriptor, step: Match, attestations: seq<Auth>, ctx: Context) returns (r: Attempt)
    ensures r == Extend(desc, step, attestations, ctx) && !r.Withdrawn?
    decreases Rank(step.source.delegation.Link()), 0, 2
  {
    if ctx.canIssue(step.value, step.source.delegation.ucan.issuer) {
      return Granted(Auth(step, [], attestations));
    }
    var below := Authorize(desc, step, ctx);
    r := if below.Ok? then Granted(Auth(step, [below.value], attestations)) else Denied(below.error);
  }

  method ResolveSources(d: Delegation, ctx: Context)
      returns (sources: seq<Source>, sessions: seq<Auth>, errors: seq<ProofError>)
    ensures var pool := ProofPool(d, ctx); var checks := Checks(pool, ctx);
      sources == Sources(pool, checks) && sessions == Sessions(checks)
    ensures errors == SourceErrors(d, ctx)
    decreases Rank(d.Link()), 0, 0
  {
    hide Rules.Validate, Sources, Sessions, Refusals, Rank, Top, Others;
    NoChecks();
    var dels, missing := ResolveProofs(ProofsOfView(d), ctx);
    var pool, misaligned := Align(d, dels);
    PoolRank(d, ctx);
    ghost var checks := Checks(pool, ctx);
    sources, sessions := [], [];
    var refused := [];
    for i := 0 to |pool|
      invariant sources == Sources(pool[..i], checks[..i])
      invariant sessions == Sessions(checks[..i]) && refused == Refusals(pool[..i], checks[..i])
    {
      var verdict := Validate(pool[i], pool, ctx);
      ChecksSnoc(pool, checks, i);
      if verdict.Err? {
        refused := refused + [Refused(pool[i], verdict.error)];
        continue;
      }
      if verdict.value.Some? {
        sessions := sessions + [verdict.value.value];
      }
      sources := sources + SourcesOf(pool[i], pool[i].ucan.Capabilities());
    }
    assert pool[..|pool|] == pool && checks[..|pool|] == checks;
    errors := UnresolvedProofs(missing) + misaligned + refused;
  }

  method Align(d: Delegation, dels: seq<Delegation>) returns (aligned: seq<Delegation>, errors: seq<ProofError>)
    ensures aligned == Aligned(d, dels) && errors == MisalignedIn(d, dels)
  {
    aligned, errors := [], [];
    for i := 0 to |dels|
      invariant aligned == Aligned(d, dels[..i]) && errors == MisalignedIn(d, dels[..i])
    {
      assert dels[..i + 1][..i] == dels[..i];
      if d.ucan.issuer != dels[i].ucan.audience {
        errors := errors + [Misaligned(dels[i])];
      } else {
        aligned := aligned + [dels[i]];
      }
    }
    assert dels[..|dels|] == dels;
  }

  method Authorize(desc: Descriptor, step: Match, ctx: Context) returns (r: Result<Auth, InvalidClaim>)
    ensures r == Rules.Authorize(desc, step, ctx)
    decreases Rank(step.source.delegation.Link()), 0, 1
  {
    var sources, sessions, errors := ResolveSources(step.source.delegation, ctx);
    ghost var pool := ProofPool(step.source.delegation, ctx);
    PoolRank(step.source.delegation, ctx);
    var selection := SelectSources(desc, Some(step.value), sources);
    MatchRanks(desc, Some(step.value), pool, Checks(pool, ctx));
    r := TryProofs(desc, step, selection, sessions, errors, ctx);
    AuthorizeSettles(desc, step, pool, selection, ctx);
  }

  /** Looks for a proof that is granted, first match first. */
  method TryProofs(desc: Descriptor, step: Match, selection: Selection, sessions: seq<Auth>, errors: seq<ProofError>,
          ctx: Context)
      returns (r: Result<Auth, InvalidClaim>)
    ensures r == SettledBelow(step, selection, errors, ProofAttempts(desc, selection.matches, sessions, ctx))
    decreases Top(StepLinks(selection.matches)), 0, 4
  {
    hide Extend, Withdrawals, Denials, FirstGranted, Rank, Top;
    NoAttempts();
    var steps := selection.matches;
    ghost var attempts := ProofAttempts(desc, steps, sessions, ctx);
    RanksBelowTop(StepLinks(steps));
    var failed := [];
    for i := 0 to |steps|
      invariant failed == Denials(attempts[..i])
      invariant forall j :: 0 <= j < i ==> !attempts[j].Granted?
    {
      AttemptsSnoc(attempts, i);
      var relevant := Relevant(steps[i].source.delegation.Link(), sessions);
      var attempt := Complete(desc, steps[i], relevant, ctx);
      if attempt.Granted? {
        FirstGrantedAt(attempts, i);
        return Ok(attempt.auth);
      }
      failed := failed + [attempt.claim];
    }
    assert attempts[..|steps|] == attempts;
    NoneGranted(attempts);
    r := Err(InvalidClaim(step, selection.errors, selection.unknowns, errors, failed));
  }

  /** Finds a valid path for an invocation. */
  method Access(desc: Descriptor, invocation: Delegation, ctx: Context) returns (r: Result<Auth, Unauthorized>)
    ensures r == Rules.Claim(desc, [Full(invocation)], ctx)
  {
    r := Claim(desc, [Full(invocation)], ctx);
  }
}
