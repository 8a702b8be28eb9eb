/** What the validator computes, as functions: every candidate is evaluated and the
    first success is picked afterwards. The methods in `Validator` are the loops of
    validator/lib.go and are proved to return exactly these values. */
module Validation {
  import opened Graph
  import opened Capabilities

  /** A verifier: the principal it speaks for and its key. */
  datatype Verifier = Verifier(did: Did, key: string)

  datatype SignatureCheck = Verified | Rejected | UnknownAlgorithm

  datatype TimeBounds = InTime | TooLate | TooEarly

  datatype Proof = Full(delegation: Delegation) | Ref(link: Link)
  {
    function Link(): Link { if Full? then delegation.Link() else link }
  }

  /** An authorization: a match, at most one proof below it, and the attestations
      that were used to accept delegations at its level. */
  datatype Auth = Auth(step: Match, proofs: seq<Auth>, attestations: seq<Auth>)
  {
    function Delegation(): Delegation { step.source.delegation }
    function Capability(): Capability { step.value }
  }

  datatype InvalidProof =
    | Unavailable(link: Link)
    | Expired(delegation: Delegation)
    | NotValidBefore(delegation: Delegation)
    | UnverifiableSignature(delegation: Delegation)
    | InvalidSignature(delegation: Delegation)
    | SessionEscalation(delegation: Delegation, cause: Unauthorized)
    | UnresolvedKey(did: Did)
    | Revoked(auth: Auth)

  datatype ProofError =
    | Unresolved(link: Link)
    | Misaligned(delegation: Delegation)
    | Refused(delegation: Delegation, cause: InvalidProof)

  datatype InvalidClaim = InvalidClaim(
    step: Match,
    errors: seq<Mismatch>,
    unknowns: seq<Capability>,
    proofErrors: seq<ProofError>,
    failed: seq<InvalidClaim>)

  datatype Unauthorized = Unauthorized(
    errors: seq<Mismatch>,
    unknowns: seq<Capability>,
    invalid: seq<InvalidProof>,
    failed: seq<InvalidClaim>)

  datatype Context = Context(
    authority: Verifier,
    canIssue: (Capability, Did) -> bool,
    isRevoked: Auth -> bool,
    resolveProof: Link -> Option<seq<Block>>,
    parsePrincipal: Did -> Option<Verifier>,
    resolveDidKey: Did -> Option<Did>,
    check: (Ucan, string) -> SignatureCheck,
    timeBounds: Ucan -> TimeBounds,
    authorityProofs: seq<Delegation>)
  {
    /** A resolver answers for a link with a view of the token behind it. */
    function ResolveProof(link: Link): Option<Delegation> {
      if link.content.Token? && resolveProof(link).Some?
      then Some(Delegation(link.content.ucan, resolveProof(link).value, []))
      else None
    }
  }

  predicate IsSelfIssued(cap: Capability, issuer: Did) {
    cap.with == issuer
  }

  /** A `notBefore` of zero means there is none. */
  function NotExpiredNotTooEarly(now: int, u: Ucan): TimeBounds {
    if u.expiration.Some? && u.expiration.value <= now then TooLate
    else if u.notBefore != 0 && now <= u.notBefore then TooEarly
    else InTime
  }

  // ---- Resolving proofs ----

  function ProofsView(links: seq<Link>, blocks: seq<Block>): (r: seq<Proof>)
    ensures |r| == |links|
    ensures forall i :: 0 <= i < |links| ==>
      r[i] == match View(links[i], blocks) case Some(d) => Full(d) case None => Ref(links[i])
  {
    seq(|links|, i requires 0 <= i < |links| =>
      match View(links[i], blocks) case Some(d) => Full(d) case None => Ref(links[i]))
  }

  function ResolveOne(p: Proof, ctx: Context): (r: Option<Delegation>)
    ensures r.Some? ==> r.value.Link() == p.Link()
  {
    if p.Full? then Some(p.delegation) else ctx.ResolveProof(p.link)
  }

  function Resolved(proofs: seq<Proof>, ctx: Context): (r: seq<Delegation>)
    ensures |r| <= |proofs|
  {
    if proofs == [] then []
    else
      var n := |proofs| - 1;
      var r := Resolved(proofs[..n], ctx);
      match ResolveOne(proofs[n], ctx)
      case Some(d) => r + [d]
      case None => r
  }

  lemma ResolvedMore(proofs: seq<Proof>, proofs': seq<Proof>, ctx: Context)
    requires forall p :: p in proofs ==> p in proofs'
    ensures forall d :: d in Resolved(proofs, ctx) ==> d in Resolved(proofs', ctx)
  {
    forall d | d in Resolved(proofs, ctx)
      ensures d in Resolved(proofs', ctx)
    {
      ResolvedHas(proofs, ctx, d);
      ResolvedHas(proofs', ctx, d);
    }
  }

  lemma {:induction false} ResolvedHas(proofs: seq<Proof>, ctx: Context, d: Delegation)
    ensures d in Resolved(proofs, ctx) <==> exists p :: p in proofs && ResolveOne(p, ctx) == Some(d)
  {
    if proofs != [] {
      var n := |proofs| - 1;
      assert proofs == proofs[..n] + [proofs[n]];
      ResolvedHas(proofs[..n], ctx, d);
    }
  }

  function Unresolvable(proofs: seq<Proof>, ctx: Context): (r: seq<Link>)
    ensures |proofs| == |Resolved(proofs, ctx)| + |r|
  {
    if proofs == [] then []
    else
      var n := |proofs| - 1;
      var r := Unresolvable(proofs[..n], ctx);
      if ResolveOne(proofs[n], ctx).None? then r + [proofs[n].Link()] else r
  }

  function AsProofs(ds: seq<Delegation>): (r: seq<Proof>)
    ensures |r| == |ds| && forall i :: 0 <= i < |ds| ==> r[i] == Full(ds[i])
  {
    seq(|ds|, i requires 0 <= i < |ds| => Full(ds[i]))
  }

  lemma {:induction false} ResolvedAsProofs(ds: seq<Delegation>, ctx: Context)
    ensures Resolved(AsProofs(ds), ctx) == ds
  {
    if ds != [] {
      var n := |ds| - 1;
      ResolvedAsProofs(ds[..n], ctx);
      var ps := AsProofs(ds);
      assert ps[..n] == AsProofs(ds[..n]);
      assert ResolveOne(ps[n], ctx) == Some(ds[n]);
      assert Resolved(ps, ctx) == Resolved(ps[..n], ctx) + [ds[n]];
    }
  }

  // ---- Pools ----

  function Others(d: Delegation, pool: seq<Delegation>): (r: seq<Delegation>)
    ensures forall p :: p in r <==> p in pool && p.Link() != d.Link()
    ensures |r| <= |pool| && (d in pool ==> |r| < |pool|)
  {
    if pool == [] then []
    else
      var n := |pool| - 1;
      assert pool == pool[..n] + [pool[n]];
      var r := Others(d, pool[..n]);
      if pool[n].Link() == d.Link() then r else r + [pool[n]]
  }

  function OnlyAttestations(pool: seq<Delegation>): (r: seq<Delegation>)
    ensures forall p :: p in r <==> p in pool && p.ucan.first.can == "ucan/attest"
    ensures |r| <= |pool|
  {
    if pool == [] then []
    else
      var n := |pool| - 1;
      assert pool == pool[..n] + [pool[n]];
      var r := OnlyAttestations(pool[..n]);
      if pool[n].ucan.first.can == "ucan/attest" then r + [pool[n]] else r
  }

  /** The pool an authorization session for `d` is claimed on. */
  function SessionPool(d: Delegation, pool: seq<Delegation>): (r: seq<Delegation>)
    ensures forall p :: p in r <==> p in pool && p.Link() != d.Link() && p.ucan.first.can == "ucan/attest"
    ensures |r| <= |Others(d, pool)|
  {
    OnlyAttestations(Others(d, pool))
  }

  lemma SessionPoolSnoc(d: Delegation, pool: seq<Delegation>, q: Delegation)
    ensures SessionPool(d, pool + [q])
      == if q.Link() != d.Link() && q.ucan.first.can == "ucan/attest" then SessionPool(d, pool) + [q]
         else SessionPool(d, pool)
  {
    var before := Others(d, pool);
    assert (pool + [q])[..|pool|] == pool;
    assert (before + [q])[..|before|] == before;
  }

  function Aligned(d: Delegation, pool: seq<Delegation>): (r: seq<Delegation>)
    ensures forall p :: p in r <==> p in pool && d.ucan.issuer == p.ucan.audience
    ensures |r| <= |pool|
  {
    if pool == [] then []
    else
      var n := |pool| - 1;
      assert pool == pool[..n] + [pool[n]];
      var r := Aligned(d, pool[..n]);
      if d.ucan.issuer == pool[n].ucan.audience then r + [pool[n]] else r
  }

  function MisalignedIn(d: Delegation, pool: seq<Delegation>): seq<ProofError> {
    if pool == [] then []
    else
      var n := |pool| - 1;
      var r := MisalignedIn(d, pool[..n]);
      if d.ucan.issuer == pool[n].ucan.audience then r else r + [Misaligned(pool[n])]
  }

  function ProofsOfView(d: Delegation): seq<Proof> {
    ProofsView(d.ucan.proofs, d.Blocks())
  }

  /** The resolved proofs of `d` that delegate to its issuer. */
  function ProofPool(d: Delegation, ctx: Context): (r: seq<Delegation>)
    ensures forall p :: p in r ==> p.Link() in d.ucan.proofs && p.ucan.audience == d.ucan.issuer
  {
    assert forall p :: p in Resolved(ProofsOfView(d), ctx) ==> p.Link() in d.ucan.proofs by {
      forall p | p in Resolved(ProofsOfView(d), ctx)
        ensures p.Link() in d.ucan.proofs
      {
        ResolvedHas(ProofsOfView(d), ctx, p);
      }
    }
    Aligned(d, Resolved(ProofsOfView(d), ctx))
  }

  // ---- Attestations ----

  /** The audiences of those among `proofs` whose first capability is `ucan/attest` on
      the authority. */
  function Attestors(authority: Did, proofs: seq<Delegation>): (r: seq<string>)
    ensures forall did :: did in r <==>
      exists p :: p in proofs && p.ucan.first.can == "ucan/attest" && p.ucan.first.with == authority
        && p.ucan.audience == did
  {
    if proofs == [] then []
    else
      var n := |proofs| - 1;
      var r := Attestors(authority, proofs[..n]);
      assert proofs == proofs[..n] + [proofs[n]];
      if proofs[n].ucan.first.can == "ucan/attest" && proofs[n].ucan.first.with == authority
      then r + [proofs[n].ucan.audience]
      else r
  }

  /** Resources an attestation may be made on: those principals, and the authority. */
  function AttestedOn(ctx: Context): seq<string> {
    Attestors(ctx.authority.did, ctx.authorityProofs) + [ctx.authority.did]
  }

  predicate AttestationDerives(claimed: Capability, delegated: Capability) {
    DefaultDerives(claimed, delegated) && claimed.nb == delegated.nb
  }

  /** Matches `ucan/attest` for exactly the delegation behind `link`. */
  function AttestationOf(link: Link, ctx: Context): Descriptor {
    AttestationFor(link, AttestedOn(ctx))
  }

  function AttestationFor(link: Link, resources: seq<string>): Descriptor {
    Descriptor(
      "ucan/attest",
      with => if with in resources then Some(with) else None,
      nb => if nb == Attestation(link) then Some(nb) else None,
      AttestationDerives)
  }

  function AttestationsFor(link: Link, auths: seq<Auth>): (r: seq<Auth>)
    ensures forall a :: a in r <==> a in auths && a.Capability().nb == Attestation(link)
  {
    if auths == [] then []
    else
      var n := |auths| - 1;
      assert auths == auths[..n] + [auths[n]];
      var r := AttestationsFor(link, auths[..n]);
      if auths[n].Capability().nb == Attestation(link) then r + [auths[n]] else r
  }

  // ---- Signatures ----

  function VerifySignature(d: Delegation, vfr: Verifier, ctx: Context): (r: Result<Option<Auth>, InvalidProof>)
    ensures r.Ok? ==> r.value.None?
  {
    match ctx.check(d.ucan, vfr.key)
    case UnknownAlgorithm => Err(UnverifiableSignature(d))
    case verdict =>
      if d.ucan.issuer == vfr.did && verdict == Verified then Ok(None) else Err(InvalidSignature(d))
  }

  predicate IsKey(did: Did) {
    HasPrefix(did, "did:key:")
  }

  /** Falling back to the key a resolver names for the issuer. */
  function VerifyResolvedKey(d: Delegation, ctx: Context): (r: Result<Option<Auth>, InvalidProof>)
    ensures r.Ok? ==> r.value.None?
  {
    match ctx.resolveDidKey(d.ucan.issuer)
    case None => Err(UnresolvedKey(d.ucan.issuer))
    case Some(did) =>
      match ctx.parsePrincipal(did)
      case None => Err(UnverifiableSignature(d))
      case Some(vfr) =>
        if IsKey(vfr.did) then VerifySignature(d, Verifier(d.ucan.issuer, vfr.key), ctx)
        else Err(UnverifiableSignature(d))
  }

  // ---- The search ----

  /** What became of one candidate chain. */
  datatype Attempt = Granted(auth: Auth) | Withdrawn(auth: Auth) | Denied(claim: InvalidClaim)

  function Validate(d: Delegation, pool: seq<Delegation>, ctx: Context): (r: Result<Option<Auth>, InvalidProof>)
    decreases Top(Links(pool)), |Others(d, pool)| + 1, 4
  {
    match ctx.timeBounds(d.ucan)
    case TooLate => Err(Expired(d))
    case TooEarly => Err(NotValidBefore(d))
    case InTime => VerifyAuthorization(d, pool, ctx)
  }

  function VerifyAuthorization(d: Delegation, pool: seq<Delegation>, ctx: Context)
      : (r: Result<Option<Auth>, InvalidProof>)
    decreases Top(Links(pool)), |Others(d, pool)| + 1, 3
  {
    if IsKey(d.ucan.issuer) then
      match ctx.parsePrincipal(d.ucan.issuer)
      case None => Err(UnverifiableSignature(d))
      case Some(vfr) => VerifySignature(d, vfr, ctx)
    else if d.ucan.issuer == ctx.authority.did then
      VerifySignature(d, ctx.authority, ctx)
    else
      match VerifySession(d, pool, ctx)
      case Ok(attest) => Ok(Some(attest))
      case Err(e) =>
        if e.failed != [] then Err(SessionEscalation(d, e)) else VerifyResolvedKey(d, ctx)
  }

  function VerifySession(d: Delegation, pool: seq<Delegation>, ctx: Context): Result<Auth, Unauthorized>
    decreases Top(Links(pool)), |Others(d, pool)| + 1, 2
  {
    var session := SessionPool(d, pool);
    SessionRank(d, pool);
    Claim(AttestationOf(d.Link(), ctx), AsProofs(session), ctx)
  }

  function ProofLinks(proofs: seq<Proof>): (r: seq<Link>)
    ensures |r| == |proofs| && forall i :: 0 <= i < |proofs| ==> r[i] == proofs[i].Link()
  {
    seq(|proofs|, i requires 0 <= i < |proofs| => proofs[i].Link())
  }

  function Checks(pool: seq<Delegation>, ctx: Context): (r: seq<Result<Option<Auth>, InvalidProof>>)
    ensures |r| == |pool|
    ensures forall i :: 0 <= i < |pool| ==> r[i] == Validate(pool[i], pool, ctx)
    decreases Top(Links(pool)), |pool| + 1, 0
  {
    seq(|pool|, i requires 0 <= i < |pool| => Validate(pool[i], pool, ctx))
  }

  function Claim(desc: Descriptor, proofs: seq<Proof>, ctx: Context): (r: Result<Auth, Unauthorized>)
    decreases Top(ProofLinks(proofs)), |proofs| + 1, 1
  {
    var pool := Resolved(proofs, ctx);
    ResolvedRank(proofs, ctx);
    var checks := Checks(pool, ctx);
    var selection := Select(desc, None, Sources(pool, checks));
    MatchRanks(desc, None, pool, checks);
    var attempts := ClaimAttempts(desc, selection.matches, Sessions(checks), ctx);
    match FirstGranted(attempts)
    case Some(auth) => Ok(auth)
    case None => Err(Unauthorized(
      selection.errors,
      selection.unknowns,
      Missing(Unresolvable(proofs, ctx)) + Faults(checks) + Withdrawals(attempts),
      Denials(attempts)))
  }

  function StepLinks(steps: seq<Match>): (r: seq<Link>)
    ensures |r| == |steps| && forall i :: 0 <= i < |steps| ==> r[i] == steps[i].source.delegation.Link()
  {
    seq(|steps|, i requires 0 <= i < |steps| => steps[i].source.delegation.Link())
  }

  /** At the top every session of the pool is recorded, and each chain is reviewed. */
  function ClaimAttempts(desc: Descriptor, steps: seq<Match>, sessions: seq<Auth>, ctx: Context): (r: seq<Attempt>)
    ensures |r| == |steps|
    ensures forall i :: 0 <= i < |steps| ==>
      r[i] == (RanksBelowTop(StepLinks(steps)); Review(Extend(desc, steps[i], sessions, ctx), ctx))
    decreases Top(StepLinks(steps)), 0, 3
  {
    RanksBelowTop(StepLinks(steps));
    seq(|steps|, i requires 0 <= i < |steps| => Review(Extend(desc, steps[i], sessions, ctx), ctx))
  }

  /** Further down only the sessions for the step's own delegation are. */
  function ProofAttempts(desc: Descriptor, steps: seq<Match>, sessions: seq<Auth>, ctx: Context): (r: seq<Attempt>)
    ensures |r| == |steps|
    ensures forall i :: 0 <= i < |steps| ==>
      r[i] == (RanksBelowTop(StepLinks(steps));
               Extend(desc, steps[i], AttestationsFor(steps[i].source.delegation.Link(), sessions), ctx))
    decreases Top(StepLinks(steps)), 0, 3
  {
    RanksBelowTop(StepLinks(steps));
    seq(|steps|, i requires 0 <= i < |steps| =>
      Extend(desc, steps[i], AttestationsFor(steps[i].source.delegation.Link(), sessions), ctx))
  }

  /** Completes one match: it may be issued as it stands, or its delegation's own
      proofs must authorize it. */
  function Extend(desc: Descriptor, step: Match, attestations: seq<Auth>, ctx: Context): Attempt
    decreases Rank(step.source.delegation.Link()), 0, 2
  {
    if ctx.canIssue(step.value, step.source.delegation.ucan.issuer) then
      Granted(Auth(step, [], attestations))
    else
      match Authorize(desc, step, ctx)
      case Ok(auth) => Granted(Auth(step, [auth], attestations))
      case Err(e) => Denied(e)
  }

  function Authorize(desc: Descriptor, step: Match, ctx: Context): (r: Result<Auth, InvalidClaim>)
    decreases Rank(step.source.delegation.Link()), 0, 1
  {
    var d := step.source.delegation;
    var pool := ProofPool(d, ctx);
    PoolRank(d, ctx);
    var checks := Checks(pool, ctx);
    var selection := Select(desc, Some(step.value), Sources(pool, checks));
    MatchRanks(desc, Some(step.value), pool, checks);
    var attempts := ProofAttempts(desc, selection.matches, Sessions(checks), ctx);
    match FirstGranted(attempts)
    case Some(auth) => Ok(auth)
    case None => Err(InvalidClaim(
      step,
      selection.errors,
      selection.unknowns,
      UnresolvedProofs(Unresolvable(ProofsOfView(d), ctx))
        + MisalignedIn(d, Resolved(ProofsOfView(d), ctx))
        + Refusals(pool, checks),
      Denials(attempts)))
  }

  function Review(attempt: Attempt, ctx: Context): Attempt {
    if attempt.Granted? && ctx.isRevoked(attempt.auth) then Withdrawn(attempt.auth) else attempt
  }

  // ---- Collecting results ----

  type Verdict = Result<Option<Auth>, InvalidProof>

  function SourcesOf(d: Delegation, caps: seq<Capability>): (r: seq<Source>)
    ensures |r| == |caps| && forall i :: 0 <= i < |caps| ==> r[i] == Source(caps[i], d)
  {
    seq(|caps|, i requires 0 <= i < |caps| => Source(caps[i], d))
  }

  /** One source per capability of each delegation that was found valid. */
  function Sources(pool: seq<Delegation>, checks: seq<Verdict>): seq<Source>
    requires |pool| == |checks|
  {
    if pool == [] then []
    else
      var n := |pool| - 1;
      var r := Sources(pool[..n], checks[..n]);
      if checks[n].Ok? then r + SourcesOf(pool[n], pool[n].ucan.Capabilities()) else r
  }

  /** Every source is a capability of a valid delegation of the pool. */
  lemma {:induction false} SourcesFrom(pool: seq<Delegation>, checks: seq<Verdict>, s: Source) returns (i: nat)
    requires |pool| == |checks| && s in Sources(pool, checks)
    ensures i < |pool| && checks[i].Ok? && pool[i] == s.delegation && s.delegation in pool
    ensures s.capability in s.delegation.ucan.Capabilities()
  {
    var n := |pool| - 1;
    if s in Sources(pool[..n], checks[..n]) {
      i := SourcesFrom(pool[..n], checks[..n], s);
    } else {
      i := n;
    }
  }

  /** Every match answers with a capability of a valid delegation of the pool. */
  lemma MatchFrom(desc: Descriptor, claimed: Option<Capability>, step: Match, pool: seq<Delegation>,
          checks: seq<Verdict>) returns (i: nat)
    requires |pool| == |checks| && step in Select(desc, claimed, Sources(pool, checks)).matches
    ensures i < |pool| && checks[i].Ok? && pool[i] == step.source.delegation && step.source.delegation in pool
    ensures step.source.capability in step.source.delegation.ucan.Capabilities()
    ensures Answer(desc, claimed, step.source.capability) == Ok(step.value)
  {
    SelectFrom(desc, claimed, Sources(pool, checks), step);
    i := SourcesFrom(pool, checks, step.source);
  }

  function Sessions(checks: seq<Verdict>): seq<Auth> {
    if checks == [] then []
    else
      var n := |checks| - 1;
      var r := Sessions(checks[..n]);
      if checks[n].Ok? && checks[n].value.Some? then r + [checks[n].value.value] else r
  }

  lemma {:induction false} SessionsHas(checks: seq<Verdict>, a: Auth)
    ensures a in Sessions(checks) <==> Ok(Some(a)) in checks
  {
    if checks != [] {
      var n := |checks| - 1;
      assert checks == checks[..n] + [checks[n]];
      SessionsHas(checks[..n], a);
    }
  }

  function Faults(checks: seq<Verdict>): seq<InvalidProof> {
    if checks == [] then []
    else
      var n := |checks| - 1;
      var r := Faults(checks[..n]);
      if checks[n].Err? then r + [checks[n].error] else r
  }

  function Refusals(pool: seq<Delegation>, checks: seq<Verdict>): seq<ProofError>
    requires |pool| == |checks|
  {
    if pool == [] then []
    else
      var n := |pool| - 1;
      var r := Refusals(pool[..n], checks[..n]);
      if checks[n].Err? then r + [Refused(pool[n], checks[n].error)] else r
  }

  function Missing(links: seq<Link>): (r: seq<InvalidProof>)
    ensures |r| == |links|
  {
    seq(|links|, i requires 0 <= i < |links| => Unavailable(links[i]))
  }

  function UnresolvedProofs(links: seq<Link>): (r: seq<ProofError>)
    ensures |r| == |links|
  {
    seq(|links|, i requires 0 <= i < |links| => Unresolved(links[i]))
  }

  function FirstGranted(attempts: seq<Attempt>): Option<Auth> {
    if attempts == [] then None
    else if attempts[0].Granted? then Some(attempts[0].auth)
    else FirstGranted(attempts[1..])
  }

  lemma {:induction false} FirstGrantedIs(attempts: seq<Attempt>)
    ensures var r := FirstGranted(attempts);
      && (r.Some? ==> Granted(r.value) in attempts)
      && (r.None? ==> forall a :: a in attempts ==> !a.Granted?)
  {
    if attempts != [] {
      FirstGrantedIs(attempts[1..]);
      assert attempts == [attempts[0]] + attempts[1..];
    }
  }

  function Withdrawals(attempts: seq<Attempt>): seq<InvalidProof> {
    if attempts == [] then []
    else
      var n := |attempts| - 1;
      var r := Withdrawals(attempts[..n]);
      if attempts[n].Withdrawn? then r + [Revoked(attempts[n].auth)] else r
  }

  function Denials(attempts: seq<Attempt>): seq<InvalidClaim> {
    if attempts == [] then []
    else
      var n := |attempts| - 1;
      var r := Denials(attempts[..n]);
      if attempts[n].Denied? then r + [attempts[n].claim] else r
  }

  // ---- Why the search ends ----

  lemma SessionRank(d: Delegation, pool: seq<Delegation>)
    ensures Top(ProofLinks(AsProofs(SessionPool(d, pool)))) <= Top(Links(pool))
  {
    var session := SessionPool(d, pool);
    forall l | l in ProofLinks(AsProofs(session))
      ensures l in Links(pool)
    {
      var i :| 0 <= i < |session| && ProofLinks(AsProofs(session))[i] == l;
      assert session[i] in pool;
      var j :| 0 <= j < |pool| && pool[j] == session[i];
      assert Links(pool)[j] == l;
    }
    TopMonotone(ProofLinks(AsProofs(session)), Links(pool));
  }

  lemma ResolvedRank(proofs: seq<Proof>, ctx: Context)
    ensures Top(Links(Resolved(proofs, ctx))) <= Top(ProofLinks(proofs))
  {
    var pool := Resolved(proofs, ctx);
    forall l | l in Links(pool)
      ensures l in ProofLinks(proofs)
    {
      var i :| 0 <= i < |pool| && Links(pool)[i] == l;
      assert pool[i] in pool;
      ResolvedHas(proofs, ctx, pool[i]);
      var p :| p in proofs && ResolveOne(p, ctx) == Some(pool[i]);
      var j :| 0 <= j < |proofs| && proofs[j] == p;
      assert ProofLinks(proofs)[j] == l;
    }
    TopMonotone(Links(pool), ProofLinks(proofs));
  }

  lemma PoolRank(d: Delegation, ctx: Context)
    ensures Top(Links(ProofPool(d, ctx))) < Rank(d.Link())
  {
    var pool := ProofPool(d, ctx);
    forall l | l in Links(pool)
      ensures l in d.ucan.proofs
    {
      var i :| 0 <= i < |pool| && Links(pool)[i] == l;
      assert pool[i] in pool;
    }
    TopMonotone(Links(pool), d.ucan.proofs);
  }

  lemma MatchRanks(desc: Descriptor, claimed: Option<Capability>, pool: seq<Delegation>, checks: seq<Verdict>)
    requires |pool| == |checks|
    ensures Top(StepLinks(Select(desc, claimed, Sources(pool, checks)).matches)) <= Top(Links(pool))
  {
    var steps := Select(desc, claimed, Sources(pool, checks)).matches;
    forall l | l in StepLinks(steps)
      ensures l in Links(pool)
    {
      var i :| 0 <= i < |steps| && StepLinks(steps)[i] == l;
      assert steps[i] in steps;
      var j := MatchFrom(desc, claimed, steps[i], pool, checks);
      assert Links(pool)[j] == l;
    }
    TopMonotone(StepLinks(steps), Links(pool));
  }
}
