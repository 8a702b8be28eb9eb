/** What a successful claim guarantees about the chain it returns, and what a failed
    one guarantees about its report. */
module ChainTheorems {
  import opened Graph
  import opened Capabilities
  import opened Validation
  import opened ProofTrees

  /** The authorization and the proofs below it, from the claim down to its root. */
  function Chain(a: Auth): (r: seq<Auth>)
    ensures r != [] && r[0] == a
    decreases a
  {
    if a.proofs == [] then [a] else [a] + Chain(a.proofs[0])
  }

  function Root(a: Auth): Auth
    decreases a
  {
    if a.proofs == [] then a else Root(a.proofs[0])
  }

  lemma {:induction false} ChainEndsInRoot(a: Auth)
    ensures Chain(a)[|Chain(a)| - 1] == Root(a)
    decreases a
  {
    if a.proofs != [] {
      ChainEndsInRoot(a.proofs[0]);
    }
  }

  // ---- The chain ----

  /** `lower` is a proof of `upper`: cited by it, delegated to its issuer, and its
      capability is derived by the one claimed above without changing the ability. */
  ghost predicate Delegates(desc: Descriptor, upper: Auth, lower: Auth) {
    && lower.Delegation().Link() in upper.Delegation().ucan.proofs
    && lower.Delegation().ucan.audience == upper.Delegation().ucan.issuer
    && desc.derives(upper.Capability(), lower.Capability())
    && lower.Capability().can == upper.Capability().can
  }

  /** `att` attests exactly `d` on an accepted resource, and whoever stands at its root
      may issue such an attestation. */
  ghost predicate Attested(d: Delegation, att: Auth, ctx: Context) {
    var root := Root(att);
    && att.Capability().can == "ucan/attest" && att.Capability().nb == Attestation(d.Link())
    && Attestor(att.Capability().with, ctx)
    && root.Capability().can == "ucan/attest" && root.Capability().nb == Attestation(d.Link())
    && Attestor(root.Capability().with, ctx)
    && ctx.canIssue(root.Capability(), root.Delegation().ucan.issuer)
  }

  /** `n` is in time, and signed or attested by a session that is sound in turn. */
  ghost predicate Vouched(n: Auth, ctx: Context)
    decreases n, 0
  {
    && ctx.timeBounds(n.Delegation().ucan) == InTime
    && (|| Signed(n.Delegation(), ctx)
        || exists i :: 0 <= i < |n.attestations|
            && Attested(n.Delegation(), n.attestations[i], ctx) && !ctx.isRevoked(n.attestations[i])
            && Sound(AttestationOf(n.Delegation().Link(), ctx), n.attestations[i], ctx))
  }

  /** Every node of the tree is vouched for, every proof delegated to the one above, and
      whoever stands at the bottom may issue the capability; so are its sessions, and theirs. */
  ghost predicate Sound(desc: Descriptor, a: Auth, ctx: Context)
    decreases a, 1
  {
    && Vouched(a, ctx)
    && (a.proofs == [] ==> ctx.canIssue(a.Capability(), a.Delegation().ucan.issuer))
    && forall i :: 0 <= i < |a.proofs| ==> Delegates(desc, a, a.proofs[i]) && Sound(desc, a.proofs[i], ctx)
  }

  /** Vouched for at every step, delegated link by link, and ending with an issuer that
      may issue the capability. */
  ghost predicate SoundChain(desc: Descriptor, chain: seq<Auth>, ctx: Context)
    requires chain != []
  {
    && (forall i :: 0 <= i < |chain| ==> Vouched(chain[i], ctx))
    && (forall i :: 0 <= i < |chain| - 1 ==> Delegates(desc, chain[i], chain[i + 1]))
    && ctx.canIssue(chain[|chain| - 1].Capability(), chain[|chain| - 1].Delegation().ucan.issuer)
  }

  lemma {:induction false} SessionRoot(l: bool, link: Link, claimed: Option<Capability>, a: Auth,
          pool: seq<Delegation>, ctx: Context)
    requires Valid(l, AttestationOf(link, ctx), claimed, a, pool, ctx)
    requires claimed.Some? ==> claimed.value.can == "ucan/attest"
    ensures var root := Root(a);
      && root.Capability().can == "ucan/attest" && root.Capability().nb == Attestation(link)
      && Attestor(root.Capability().with, ctx)
      && ctx.canIssue(root.Capability(), root.Delegation().ucan.issuer)
    decreases a
  {
    SessionStepFacts(l, link, claimed, a, pool, ctx);
    if a.proofs != [] {
      SessionRoot(l, link, Some(a.Capability()), a.proofs[0], ProofPool(a.Delegation(), ctx), ctx);
    }
  }

  lemma SessionStepFacts(l: bool, link: Link, claimed: Option<Capability>, a: Auth, pool: seq<Delegation>, ctx: Context)
    requires Valid(l, AttestationOf(link, ctx), claimed, a, pool, ctx)
    requires claimed.Some? ==> claimed.value.can == "ucan/attest"
    ensures a.Capability().can == "ucan/attest" && a.Capability().nb == Attestation(link)
      && Attestor(a.Capability().with, ctx)
    ensures a.proofs == [] ==> ctx.canIssue(a.Capability(), a.Delegation().ucan.issuer)
    ensures a.proofs != []
      ==> Valid(l, AttestationOf(link, ctx), Some(a.Capability()), a.proofs[0], ProofPool(a.Delegation(), ctx), ctx)
  {
    hide Valid, Answer, ProofPool;
    TreeFacts(l, AttestationOf(link, ctx), claimed, a, pool, ctx);
    SessionAnswers(link, claimed, a.step.source.capability, a.Capability(), ctx);
  }

  lemma SessionAnswers(link: Link, claimed: Option<Capability>, cap: Capability, v: Capability, ctx: Context)
    requires Answer(AttestationOf(link, ctx), claimed, cap) == Ok(v)
    requires claimed.Some? ==> claimed.value.can == "ucan/attest"
    ensures v.can == "ucan/attest" && v.nb == Attestation(link) && Attestor(v.with, ctx)
  {
  }

  lemma SessionAttests(l: bool, d: Delegation, att: Auth, pool: seq<Delegation>, ctx: Context)
    requires Valid(l, AttestationOf(d.Link(), ctx), None, att, pool, ctx)
    ensures Attested(d, att, ctx)
  {
    hide Valid;
    SessionRoot(l, d.Link(), None, att, pool, ctx);
    SessionStepFacts(l, d.Link(), None, att, pool, ctx);
  }

  lemma {:induction false} AcceptedVouched(l: bool, n: Auth, d: Delegation, pool: seq<Delegation>, ctx: Context)
    requires d == n.Delegation() && Accepted(l, d, n.attestations, pool, ctx)
    ensures Vouched(n, ctx)
    decreases n, 0
  {
    hide Valid, Attested, Signed, Sound;
    if !Signed(d, ctx) {
      var desc := AttestationOf(d.Link(), ctx);
      var i :| 0 <= i < |n.attestations| && Valid(l, desc, None, n.attestations[i], Scope(l, d, pool), ctx);
      SessionAttests(l, d, n.attestations[i], Scope(l, d, pool), ctx);
      TopOfClaim(l, desc, n.attestations[i], Scope(l, d, pool), ctx);
      TreeSound(l, desc, None, n.attestations[i], Scope(l, d, pool), ctx);
    }
  }

  /** A valid tree is sound, through any depth of proofs and sessions. */
  lemma {:induction false} TreeSound(l: bool, desc: Descriptor, claimed: Option<Capability>, a: Auth,
          pool: seq<Delegation>, ctx: Context)
    requires Valid(l, desc, claimed, a, pool, ctx)
    ensures Sound(desc, a, ctx)
    decreases a, 1
  {
    hide Valid, Accepted, Vouched, Delegates;
    TreeFacts(l, desc, claimed, a, pool, ctx);
    AcceptedVouched(l, a, a.Delegation(), pool, ctx);
    if a.proofs != [] {
      var below := ProofPool(a.Delegation(), ctx);
      TreeSound(l, desc, Some(a.Capability()), a.proofs[0], below, ctx);
      Step(l, desc, a, a.proofs[0], below, ctx);
    }
  }

  lemma SoundCons(desc: Descriptor, a: Auth, rest: seq<Auth>, ctx: Context)
    requires Vouched(a, ctx) && rest != [] && SoundChain(desc, rest, ctx) && Delegates(desc, a, rest[0])
    ensures SoundChain(desc, [a] + rest, ctx)
  {
    var chain := [a] + rest;
    assert forall i :: 0 < i < |chain| ==> chain[i] == rest[i - 1];
    assert forall i :: 0 < i < |chain| - 1 ==> Delegates(desc, rest[i - 1], rest[i]);
  }

  lemma Step(l: bool, desc: Descriptor, a: Auth, below: Auth, pool: seq<Delegation>, ctx: Context)
    requires Valid(l, desc, Some(a.Capability()), below, pool, ctx) && pool == ProofPool(a.Delegation(), ctx)
    ensures Delegates(desc, a, below)
  {
    assert below.Delegation() in pool;
  }

  /** The chain of a sound tree. */
  lemma {:induction false} ChainSound(desc: Descriptor, a: Auth, ctx: Context)
    requires Sound(desc, a, ctx)
    ensures SoundChain(desc, Chain(a), ctx)
    decreases a
  {
    hide Vouched, Delegates;
    if a.proofs != [] {
      ChainSound(desc, a.proofs[0], ctx);
      SoundCons(desc, a, Chain(a.proofs[0]), ctx);
    }
  }

  /** Access to an invocation is granted only along a chain of delegations that starts
      at the invocation, is aligned and derived link by link, is vouched for at every
      step, and ends with an issuer that may issue the capability; and every session it
      was accepted through is as sound. */
  lemma AccessSound(desc: Descriptor, invocation: Delegation, a: Auth, ctx: Context)
    requires Claim(desc, [Full(invocation)], ctx) == Ok(a)
    ensures Sound(desc, a, ctx) && SoundChain(desc, Chain(a), ctx) && !ctx.isRevoked(a)
    ensures Chain(a)[0].Delegation() == invocation && Chain(a)[0].Capability().can == desc.can
  {
    ClaimSound(desc, [Full(invocation)], ctx);
    OneProof(invocation, ctx);
    TreeSound(false, desc, None, a, [invocation], ctx);
    ChainSound(desc, a, ctx);
    Top(desc, invocation, a, ctx);
  }

  ghost predicate SelfIssuing(ctx: Context) {
    forall cap, did :: ctx.canIssue(cap, did) == IsSelfIssued(cap, did)
  }

  /** `d` is signed, or has a sound session made for exactly it, with the authority, or a
      principal it delegated `ucan/attest` to, at its root. */
  ghost predicate AuthorityVouches(d: Delegation, attestations: seq<Auth>, ctx: Context) {
    || Signed(d, ctx)
    || exists i :: 0 <= i < |attestations|
        && Attested(d, attestations[i], ctx) && Attestor(Root(attestations[i]).Delegation().ucan.issuer, ctx)
        && Sound(AttestationOf(d.Link(), ctx), attestations[i], ctx)
  }

  lemma VouchedByAuthority(n: Auth, ctx: Context)
    requires SelfIssuing(ctx) && Vouched(n, ctx)
    ensures AuthorityVouches(n.Delegation(), n.attestations, ctx)
  {
    hide Signed, Sound;
  }

  /** When principals may issue what is theirs and nothing else, the chain ends with the
      owner of the resource, and each of its delegations is signed or has a sound session
      that starts from the authority. */
  lemma AccessOwned(desc: Descriptor, invocation: Delegation, a: Auth, ctx: Context)
    requires SelfIssuing(ctx) && Claim(desc, [Full(invocation)], ctx) == Ok(a)
    ensures var chain := Chain(a);
      && chain[|chain| - 1].Capability().with == chain[|chain| - 1].Delegation().ucan.issuer
      && forall i :: 0 <= i < |chain| ==> AuthorityVouches(chain[i].Delegation(), chain[i].attestations, ctx)
  {
    hide Claim, Delegates, Vouched;
    AccessSound(desc, invocation, a, ctx);
    var chain := Chain(a);
    forall i | 0 <= i < |chain|
      ensures AuthorityVouches(chain[i].Delegation(), chain[i].attestations, ctx)
    {
      VouchedByAuthority(chain[i], ctx);
    }
  }

  /** The token may be used at `now`. */
  predicate LiveAt(u: Ucan, now: int) {
    (u.expiration.Some? ==> now < u.expiration.value) && (u.notBefore == 0 || u.notBefore < now)
  }

  /** The standard time check passes exactly the live tokens, and says of the others which
      bound they miss; an expired one is late, whether or not it is early too. */
  lemma TimeCheckIff(u: Ucan, now: int)
    ensures NotExpiredNotTooEarly(now, u).InTime? <==> LiveAt(u, now)
    ensures NotExpiredNotTooEarly(now, u).TooLate? <==> u.expiration.Some? && u.expiration.value <= now
    ensures NotExpiredNotTooEarly(now, u).TooEarly?
       <==> u.notBefore != 0 && now <= u.notBefore && (u.expiration.Some? ==> now < u.expiration.value)
  {
  }

  /** With the standard time check every delegation of the chain is live. */
  lemma AccessInTime(desc: Descriptor, invocation: Delegation, a: Auth, ctx: Context, now: int)
    requires Claim(desc, [Full(invocation)], ctx) == Ok(a)
    requires forall u :: ctx.timeBounds(u) == NotExpiredNotTooEarly(now, u)
    ensures forall i :: 0 <= i < |Chain(a)| ==> LiveAt(Chain(a)[i].Delegation().ucan, now)
  {
    AccessSound(desc, invocation, a, ctx);
    forall i | 0 <= i < |Chain(a)|
      ensures LiveAt(Chain(a)[i].Delegation().ucan, now)
    {
      assert Vouched(Chain(a)[i], ctx);
    }
  }

  lemma Top(desc: Descriptor, invocation: Delegation, a: Auth, ctx: Context)
    requires Valid(false, desc, None, a, [invocation], ctx)
    ensures a.Delegation() == invocation && a.Capability().can == desc.can
  {
    assert a.Delegation() in [invocation];
  }

  lemma OneProof(d: Delegation, ctx: Context)
    ensures Resolved([Full(d)], ctx) == [d]
  {
  }

  // ---- The root of authority ----

  /** A descriptor that reads resources as they are and derives by default. */
  ghost predicate ByDefault(desc: Descriptor) {
    && (forall w :: desc.with(w) == None || desc.with(w) == Some(w))
    && (forall c, d :: desc.derives(c, d) ==> DefaultDerives(c, d))
  }

  /** Every capability of the chain is claimed on `owner`; the delegations name it
      literally or, except at the top of a claim, as `ucan:*`. */
  ghost predicate Speaks(chain: seq<Auth>, owner: Did, top: bool) {
    forall i :: 0 <= i < |chain| ==>
      && chain[i].Capability().with == owner
      && (|| chain[i].step.source.capability.with == owner
          || ((i > 0 || !top) && chain[i].step.source.capability.with == "ucan:*"))
  }

  predicate IsResource(owner: Did) {
    owner != "" && !HasSuffix(owner, "*")
  }

  lemma {:induction false} OneResource(l: bool, desc: Descriptor, claimed: Option<Capability>, a: Auth,
          pool: seq<Delegation>, ctx: Context, owner: Did)
    requires SelfIssuing(ctx) && ByDefault(desc) && Valid(l, desc, claimed, a, pool, ctx)
    requires owner == Root(a).Delegation().ucan.issuer && IsResource(owner)
    ensures claimed.Some? ==> claimed.value.with == owner
    ensures Speaks(Chain(a), owner, claimed.None?)
    decreases a
  {
    if a.proofs != [] {
      OneResource(l, desc, Some(a.Capability()), a.proofs[0], ProofPool(a.Delegation(), ctx), ctx, owner);
      SpeaksCons(a, Chain(a.proofs[0]), owner);
    }
    StepResource(desc, claimed, a.step.source.capability, a.Capability(), owner);
    SpeaksTop(a, owner, claimed.None?);
  }

  lemma SpeaksCons(a: Auth, rest: seq<Auth>, owner: Did)
    requires Speaks(rest, owner, false)
    ensures forall i :: 0 < i < |rest| + 1 ==>
      && ([a] + rest)[i].Capability().with == owner
      && (|| ([a] + rest)[i].step.source.capability.with == owner
          || ([a] + rest)[i].step.source.capability.with == "ucan:*")
  {
    assert forall i :: 0 < i < |rest| + 1 ==> ([a] + rest)[i] == rest[i - 1];
  }

  lemma SpeaksTop(a: Auth, owner: Did, top: bool)
    requires a.Capability().with == owner
    requires a.step.source.capability.with == owner || (!top && a.step.source.capability.with == "ucan:*")
    requires forall i :: 0 < i < |Chain(a)| ==>
      && Chain(a)[i].Capability().with == owner
      && (|| Chain(a)[i].step.source.capability.with == owner
          || Chain(a)[i].step.source.capability.with == "ucan:*")
    ensures Speaks(Chain(a), owner, top)
  {
  }

  lemma StepResource(desc: Descriptor, claimed: Option<Capability>, cap: Capability, value: Capability, owner: Did)
    requires ByDefault(desc) && Answer(desc, claimed, cap) == Ok(value)
    requires value.with == owner && IsResource(owner)
    ensures claimed.Some? ==> claimed.value.with == owner
    ensures cap.with == owner || (claimed.Some? && cap.with == "ucan:*")
  {
    assert desc.with(cap.with) == None || desc.with(cap.with) == Some(cap.with);
    if claimed.Some? {
      var resolved := ResolveResource(cap.with, claimed.value.with);
      assert desc.with(resolved) == None || desc.with(resolved) == Some(resolved);
      assert DefaultDerives(claimed.value, value);
    }
  }

  /** Every delegation of an accepted chain speaks of the invoked resource, literally
      or as `ucan:*`, and that resource is the DID of the chain's last issuer. */
  lemma RootOfAuthority(desc: Descriptor, invocation: Delegation, a: Auth, ctx: Context)
    requires SelfIssuing(ctx) && ByDefault(desc) && Claim(desc, [Full(invocation)], ctx) == Ok(a)
    requires IsResource(Root(a).Delegation().ucan.issuer)
    ensures Speaks(Chain(a), Root(a).Delegation().ucan.issuer, true)
    ensures Chain(a)[|Chain(a)| - 1] == Root(a)
  {
    ClaimSound(desc, [Full(invocation)], ctx);
    OneProof(invocation, ctx);
    ChainEndsInRoot(a);
    OneResource(false, desc, None, a, [invocation], ctx, Root(a).Delegation().ucan.issuer);
  }

  // ---- Sessions ----

  /** A delegation whose issuer is neither a key nor the authority passes only by a
      resolved key, or through another delegation of the pool that is itself valid
      there and carries an authorized attestation for exactly this link. */
  lemma SessionSoundness(d: Delegation, pool: seq<Delegation>, ctx: Context)
    requires Validate(d, pool, ctx).Ok? && NeedsSession(d, ctx)
    ensures VerifyResolvedKey(d, ctx).Ok? ||
      exists e, cap :: e in pool && e.Link() != d.Link() && e.ucan.first.can == "ucan/attest"
        && Attesting(d, e, cap, SessionPool(d, pool), ctx)
  {
    ValidateVouches(d, pool, ctx);
    if !Signed(d, ctx) {
      var session := SessionPool(d, pool);
      ResolvedAsProofs(session, ctx);
      var step := ClaimPicks(AttestationOf(d.Link(), ctx), AsProofs(session), session, ctx);
      SessionStep(d, step, session, ctx);
    }
  }

  /** `e` is valid in `session`, and its capability `cap` attests `d` with authority. */
  ghost predicate Attesting(d: Delegation, e: Delegation, cap: Capability, session: seq<Delegation>, ctx: Context) {
    && Validate(e, session, ctx).Ok?
    && cap in e.ucan.Capabilities()
    && cap.can == "ucan/attest" && Attestor(cap.with, ctx) && cap.nb == Attestation(d.Link())
    && (ctx.canIssue(cap, e.ucan.issuer)
        || Authorize(AttestationOf(d.Link(), ctx), Match(Source(cap, e), cap), ctx).Ok?)
  }

  lemma SessionStep(d: Delegation, step: Match, session: seq<Delegation>, ctx: Context)
    requires step in Select(AttestationOf(d.Link(), ctx), None, Sources(session, Checks(session, ctx))).matches
    requires Extend(AttestationOf(d.Link(), ctx), step, Sessions(Checks(session, ctx)), ctx).Granted?
    ensures step.source.delegation in session
    ensures Attesting(d, step.source.delegation, step.source.capability, session, ctx)
  {
    hide Validate, Authorize, Claim, Rank, Select;
    var source := step.source;
    var i := MatchFrom(AttestationOf(d.Link(), ctx), None, step, session, Checks(session, ctx));
    ParsedAttestation(d.Link(), source.capability, step.value, ctx);
    assert step == Match(Source(source.capability, source.delegation), source.capability);
  }

  // ---- Failure reports ----

  function NumRevoked(faults: seq<InvalidProof>): nat {
    if faults == [] then 0
    else NumRevoked(faults[..|faults| - 1]) + (if faults[|faults| - 1].Revoked? then 1 else 0)
  }

  function NumValid(checks: seq<Verdict>): nat {
    if checks == [] then 0
    else NumValid(checks[..|checks| - 1]) + (if checks[|checks| - 1].Ok? then 1 else 0)
  }

  function NumCapabilities(pool: seq<Delegation>, checks: seq<Verdict>): nat
    requires |pool| == |checks|
  {
    if pool == [] then 0
    else
      var n := |pool| - 1;
      NumCapabilities(pool[..n], checks[..n])
        + (if checks[n].Ok? then |pool[n].ucan.Capabilities()| else 0)
  }

  lemma {:induction false} NumRevokedConcat(a: seq<InvalidProof>, b: seq<InvalidProof>)
    ensures NumRevoked(a + b) == NumRevoked(a) + NumRevoked(b)
  {
    if b == [] {
      assert a + b == a;
    } else {
      var n := |b| - 1;
      NumRevokedConcat(a, b[..n]);
      assert (a + b)[..|a + b| - 1] == a + b[..n];
    }
  }

  lemma {:induction false} NoneRevoked(faults: seq<InvalidProof>)
    requires forall f :: f in faults ==> !f.Revoked?
    ensures NumRevoked(faults) == 0
  {
    if faults != [] {
      NoneRevoked(faults[..|faults| - 1]);
      assert faults[|faults| - 1] in faults;
    }
  }

  lemma {:induction false} ChecksSplit(pool: seq<Delegation>, checks: seq<Verdict>)
    requires |pool| == |checks|
    ensures |pool| == NumValid(checks) + |Faults(checks)|
    ensures |Sources(pool, checks)| == NumCapabilities(pool, checks)
    ensures forall f :: f in Faults(checks) ==> Err(f) in checks
  {
    if pool != [] {
      var n := |pool| - 1;
      ChecksSplit(pool[..n], checks[..n]);
      assert checks == checks[..n] + [checks[n]];
    }
  }

  lemma {:induction false} AttemptsSplit(attempts: seq<Attempt>)
    requires forall a :: a in attempts ==> !a.Granted?
    ensures |attempts| == |Withdrawals(attempts)| + |Denials(attempts)|
    ensures NumRevoked(Withdrawals(attempts)) == |Withdrawals(attempts)|
  {
    if attempts != [] {
      var n := |attempts| - 1;
      assert attempts == attempts[..n] + [attempts[n]];
      AttemptsSplit(attempts[..n]);
      if attempts[n].Withdrawn? {
        NumRevokedConcat(Withdrawals(attempts[..n]), [Revoked(attempts[n].auth)]);
      }
    }
  }

  lemma FaultsNotRevoked(pool: seq<Delegation>, ctx: Context)
    ensures NumRevoked(Faults(Checks(pool, ctx))) == 0
  {
    var checks := Checks(pool, ctx);
    ChecksSplit(pool, checks);
    forall f | f in Faults(checks)
      ensures !f.Revoked?
    {
      var i :| 0 <= i < |checks| && checks[i] == Err(f);
      ValidationNeverRevokes(pool[i], pool, ctx);
    }
    NoneRevoked(Faults(checks));
  }

  lemma ValidationNeverRevokes(d: Delegation, pool: seq<Delegation>, ctx: Context)
    ensures Validate(d, pool, ctx).Err? ==> !Validate(d, pool, ctx).error.Revoked?
  {
  }

  /** A failed claim accounts for everything it was given: each proof is reported
      invalid or was found valid, and each capability of the valid ones is reported as
      unknown, malformed, unproven or revoked. */
  lemma FailureReportComplete(desc: Descriptor, proofs: seq<Proof>, ctx: Context)
    requires Claim(desc, proofs, ctx).Err?
    ensures var report := Claim(desc, proofs, ctx).error;
      var pool := Resolved(proofs, ctx);
      && |proofs| == (|report.invalid| - NumRevoked(report.invalid)) + NumValid(Checks(pool, ctx))
      && NumCapabilities(pool, Checks(pool, ctx))
           == |report.unknowns| + |report.errors| + |report.failed| + NumRevoked(report.invalid)
  {
    var pool := Resolved(proofs, ctx);
    var selection, attempts := ClaimReports(desc, proofs, pool, ctx);
    var missing, faults := Missing(Unresolvable(proofs, ctx)), Faults(Checks(pool, ctx));
    ChecksSplit(pool, Checks(pool, ctx));
    SelectSplits(desc, None, Sources(pool, Checks(pool, ctx)));
    AttemptsSplit(attempts);
    FaultsNotRevoked(pool, ctx);
    NoneRevoked(missing);
    NumRevokedConcat(missing, faults);
    NumRevokedConcat(missing + faults, Withdrawals(attempts));
  }
}
