/** Where stronger promises would be false, and exactly what holds instead. */
module Boundaries {
  import opened Graph
  import opened Capabilities
  import opened Validation
  import opened ProofTrees
  import opened Scenario
  import opened ValidatorTheorems

  // ---- Revocation ----

  /** A claim is decided by one chain per matching capability, the first that the
      search finds below it; revoking those is enough to refuse the claim. */
  lemma ClaimIffFirstChainStands(desc: Descriptor, proofs: seq<Proof>, ctx: Context)
    ensures var pool := Resolved(proofs, ctx);
      Claim(desc, proofs, ctx).Ok? <==> exists step ::
        && step in Select(desc, None, Sources(pool, Checks(pool, ctx))).matches
        && Stands(desc, step, pool, ctx)
  {
    var pool := Resolved(proofs, ctx);
    var steps := Select(desc, None, Sources(pool, Checks(pool, ctx))).matches;
    if Claim(desc, proofs, ctx).Ok? {
      var step := ClaimPicks(desc, proofs, pool, ctx);
      assert Stands(desc, step, pool, ctx);
    }
    if step :| step in steps && Stands(desc, step, pool, ctx) {
      ClaimGrants(desc, step, proofs, pool, steps, ctx);
    }
  }

  ghost predicate Stands(desc: Descriptor, step: Match, pool: seq<Delegation>, ctx: Context) {
    Review(Extend(desc, step, Sessions(Checks(pool, ctx)), ctx), ctx).Granted?
  }

  // ---- What a proof does to the others in its pool ----

  /** Whoever issued `e` may make the attestation `cap`, or was delegated it. */
  ghost predicate MayAttest(d: Delegation, e: Delegation, cap: Capability, ctx: Context) {
    || ctx.canIssue(cap, e.ucan.issuer)
    || Authorize(AttestationOf(d.Link(), ctx), Match(Source(cap, e), cap), ctx).Ok?
  }

  /** With nothing revoked, a session succeeds exactly when a valid attestation in its
      pool names the delegation and may do so. */
  lemma SessionIff(d: Delegation, pool: seq<Delegation>, ctx: Context)
    requires Unrevoked(ctx)
    ensures VerifySession(d, pool, ctx).Ok?
       <==> exists e, cap :: NamedBy(d, e, cap, SessionPool(d, pool), ctx) && MayAttest(d, e, cap, ctx)
  {
    hide Claim, Authorize, NamedBy, Stands, Select;
    var session, desc := SessionPool(d, pool), AttestationOf(d.Link(), ctx);
    ResolvedAsProofs(session, ctx);
    ClaimIffFirstChainStands(desc, AsProofs(session), ctx);
    var matches := Select(desc, None, Sources(session, Checks(session, ctx))).matches;
    if step :| step in matches && Stands(desc, step, session, ctx) {
      StandingNamed(d, step, session, ctx);
      assert NamedBy(d, step.source.delegation, step.value, session, ctx);
    }
    if e, cap :| NamedBy(d, e, cap, session, ctx) && MayAttest(d, e, cap, ctx) {
      NamedMatches(d, e, cap, session, ctx);
      AttestingStands(d, e, cap, session, ctx);
    }
  }

  lemma StandingNamed(d: Delegation, step: Match, session: seq<Delegation>, ctx: Context)
    requires step in Select(AttestationOf(d.Link(), ctx), None, Sources(session, Checks(session, ctx))).matches
    requires Stands(AttestationOf(d.Link(), ctx), step, session, ctx)
    ensures NamedBy(d, step.source.delegation, step.value, session, ctx)
    ensures MayAttest(d, step.source.delegation, step.value, ctx)
  {
    hide Validate, Authorize, Claim;
    var i := MatchFrom(AttestationOf(d.Link(), ctx), None, step, session, Checks(session, ctx));
    ParsedAttestation(d.Link(), step.source.capability, step.value, ctx);
    assert step == Match(Source(step.value, step.source.delegation), step.value);
  }

  lemma AttestingStands(d: Delegation, e: Delegation, cap: Capability, session: seq<Delegation>, ctx: Context)
    requires Unrevoked(ctx) && MayAttest(d, e, cap, ctx)
    ensures Stands(AttestationOf(d.Link(), ctx), Match(Source(cap, e), cap), session, ctx)
  {
    hide Authorize, Validate;
  }

  /** `q` carries an attestation of the delegation behind `link`. */
  predicate Names(q: Delegation, link: Link) {
    exists i :: 0 <= i < |q.ucan.Capabilities()|
      && q.ucan.Capabilities()[i].can == "ucan/attest" && q.ucan.Capabilities()[i].nb == Attestation(link)
  }

  /** `q` is no attestation, or attests nothing in the pool. */
  predicate Quiet(q: Delegation, pool: seq<Delegation>) {
    q.ucan.first.can != "ucan/attest" || forall p :: p in pool ==> !Names(q, p.Link())
  }

  lemma NotNamed(d: Delegation, q: Delegation, cap: Capability, session: seq<Delegation>, ctx: Context)
    requires !Names(q, d.Link())
    ensures !NamedBy(d, q, cap, session, ctx)
  {
    assert forall i :: 0 <= i < |q.ucan.Capabilities()| ==> q.ucan.Capabilities()[i] in q.ucan.Capabilities();
  }

  /** A proof that attests nothing in a pool changes no verdict in it, whether or not
      DID keys resolve: through any depth of sessions nobody is vouched for by it. */
  lemma {:induction false} VerdictUnchanged(d: Delegation, pool: seq<Delegation>, q: Delegation, ctx: Context)
    requires Unrevoked(ctx) && d in pool && Quiet(q, pool)
    ensures Validate(d, pool + [q], ctx).Ok? <==> Validate(d, pool, ctx).Ok?
    decreases |pool|, 1
  {
    hide Validate, VerifySession, Quiet;
    if NeedsSession(d, ctx) && ctx.timeBounds(d.ucan) == InTime {
      FallbackIff(d, pool, ctx);
      FallbackIff(d, pool + [q], ctx);
      SessionIff(d, pool, ctx);
      SessionIff(d, pool + [q], ctx);
      forall e, cap
        ensures NamedBy(d, e, cap, SessionPool(d, pool + [q]), ctx) <==> NamedBy(d, e, cap, SessionPool(d, pool), ctx)
      {
        NamedUnchanged(d, e, cap, pool, q, ctx);
      }
    } else {
      WithoutSession(d, pool, pool + [q], ctx);
    }
  }

  lemma WithoutSession(d: Delegation, pool: seq<Delegation>, pool': seq<Delegation>, ctx: Context)
    requires !(NeedsSession(d, ctx) && ctx.timeBounds(d.ucan) == InTime)
    ensures Validate(d, pool', ctx) == Validate(d, pool, ctx)
  {
  }

  lemma {:induction false} NamedUnchanged(d: Delegation, e: Delegation, cap: Capability, pool: seq<Delegation>,
          q: Delegation, ctx: Context)
    requires Unrevoked(ctx) && d in pool && Quiet(q, pool)
    ensures NamedBy(d, e, cap, SessionPool(d, pool + [q]), ctx) <==> NamedBy(d, e, cap, SessionPool(d, pool), ctx)
    decreases |pool|, 0
  {
    hide Validate, Names, SessionPool;
    var session := SessionPool(d, pool);
    SessionPoolSnoc(d, pool, q);
    if SessionPool(d, pool + [q]) != session {
      NotNamed(d, q, cap, session + [q], ctx);
      if e in session {
        VerdictUnchanged(e, session, q, ctx);
      }
      if e == q {
        NotNamed(d, q, cap, session, ctx);
      }
    }
  }

  /** With nothing revoked, a proof that attests nothing in a pool never loses a claim. */
  lemma OrdinaryProofsSafe(desc: Descriptor, proofs: seq<Proof>, q: Proof, ctx: Context)
    requires Unrevoked(ctx) && Claim(desc, proofs, ctx).Ok?
    requires ResolveOne(q, ctx).Some? ==> Quiet(ResolveOne(q, ctx).value, Resolved(proofs, ctx))
    ensures Claim(desc, proofs + [q], ctx).Ok?
  {
    hide Claim, Select, Quiet;
    var pool, pool' := Resolved(proofs, ctx), Resolved(proofs + [q], ctx);
    assert (proofs + [q])[..|proofs|] == proofs;
    ClaimIffFirstChainStands(desc, proofs, ctx);
    var step :| step in Select(desc, None, Sources(pool, Checks(pool, ctx))).matches && Stands(desc, step, pool, ctx);
    if ResolveOne(q, ctx).None? {
      assert pool' == pool;
    } else {
      assert pool' == pool + [ResolveOne(q, ctx).value];
      StepKept(desc, step, pool, ResolveOne(q, ctx).value, ctx);
    }
    StandsKept(desc, step, pool, pool', ctx);
    ClaimGrants(desc, step, proofs + [q], pool', Select(desc, None, Sources(pool', Checks(pool', ctx))).matches, ctx);
  }

  lemma StepKept(desc: Descriptor, step: Match, pool: seq<Delegation>, q: Delegation, ctx: Context)
    requires Unrevoked(ctx) && Quiet(q, pool)
    requires step in Select(desc, None, Sources(pool, Checks(pool, ctx))).matches
    ensures step in Select(desc, None, Sources(pool + [q], Checks(pool + [q], ctx))).matches
  {
    hide Validate, Select, Quiet;
    var pool' := pool + [q];
    var i := MatchFrom(desc, None, step, pool, Checks(pool, ctx));
    assert pool'[i] == pool[i] && pool[i] in pool;
    VerdictUnchanged(pool[i], pool, q, ctx);
    SourcesFind(pool', Checks(pool', ctx), i, step.source.capability);
    SelectFinds(desc, None, Sources(pool', Checks(pool', ctx)), step.source, step.value);
  }

  lemma StandsKept(desc: Descriptor, step: Match, pool: seq<Delegation>, pool': seq<Delegation>, ctx: Context)
    requires Unrevoked(ctx) && Stands(desc, step, pool, ctx)
    ensures Stands(desc, step, pool', ctx)
  {
  }

  /** An attestation `q` of `d`, and of nothing else in the pool, loses `d` exactly when
      `d` was accepted by its resolved key alone and `q`, itself valid, names it on an
      accepted resource without being allowed to. */
  lemma LostIffNamedInVain(d: Delegation, pool: seq<Delegation>, q: Delegation, ctx: Context)
    requires Unrevoked(ctx) && d in pool && Validate(d, pool, ctx).Ok?
    requires q.ucan.first.can == "ucan/attest" && q.Link() != d.Link()
    requires forall p :: p in pool && p.Link() != d.Link() ==> !Names(q, p.Link())
    ensures var session := SessionPool(d, pool) + [q];
      Validate(d, pool + [q], ctx).Err? <==>
        && NeedsSession(d, ctx) && VerifySession(d, pool, ctx).Err?
        && (exists cap :: NamedBy(d, q, cap, session, ctx))
        && forall cap :: NamedBy(d, q, cap, session, ctx) ==> !MayAttest(d, q, cap, ctx)
  {
    hide Validate, VerifySession, MayAttest;
    InTimeWhenValid(d, pool, ctx);
    if NeedsSession(d, ctx) {
      var before, session := SessionPool(d, pool), SessionPool(d, pool) + [q];
      SessionPoolSnoc(d, pool, q);
      FallbackIff(d, pool, ctx);
      FallbackIff(d, pool + [q], ctx);
      SessionIff(d, pool, ctx);
      SessionIff(d, pool + [q], ctx);
      forall e, cap
        ensures NamedBy(d, e, cap, session, ctx) <==>
          NamedBy(d, e, cap, before, ctx) || (e == q && NamedBy(d, q, cap, session, ctx))
      {
        NamedOrNew(d, e, cap, before, q, ctx);
      }
    } else {
      WithoutSession(d, pool, pool + [q], ctx);
    }
  }

  /** In general, for any number of attestations of any number of members: who needs a
      session is accepted exactly when a valid attestation of the pool names it and may, or
      none names it and its resolved key verifies. */
  lemma VerdictIff(d: Delegation, pool: seq<Delegation>, ctx: Context)
    requires Unrevoked(ctx) && NeedsSession(d, ctx) && ctx.timeBounds(d.ucan) == InTime
    ensures Validate(d, pool, ctx).Ok? <==>
      || (exists e, cap :: NamedBy(d, e, cap, SessionPool(d, pool), ctx) && MayAttest(d, e, cap, ctx))
      || (VerifyResolvedKey(d, ctx).Ok? && forall e, cap :: !NamedBy(d, e, cap, SessionPool(d, pool), ctx))
  {
    hide Validate, VerifySession, VerifyResolvedKey, NamedBy, MayAttest;
    FallbackIff(d, pool, ctx);
    SessionIff(d, pool, ctx);
  }

  /** `cap` of `d`, read as `v`, answers the claim, and may be issued or is authorized. */
  ghost predicate Supports(desc: Descriptor, d: Delegation, cap: Capability, v: Capability, ctx: Context) {
    && cap in d.ucan.Capabilities() && Answer(desc, None, cap) == Ok(v)
    && (ctx.canIssue(v, d.ucan.issuer) || Authorize(desc, Match(Source(cap, d), v), ctx).Ok?)
  }

  /** With nothing revoked, a claim succeeds exactly when an accepted member supports it. */
  lemma ClaimIffSupported(desc: Descriptor, proofs: seq<Proof>, pool: seq<Delegation>, ctx: Context)
    requires Unrevoked(ctx) && pool == Resolved(proofs, ctx)
    ensures Claim(desc, proofs, ctx).Ok? <==>
      exists d, cap, v :: d in pool && Validate(d, pool, ctx).Ok? && Supports(desc, d, cap, v, ctx)
  {
    hide Claim, Validate, Authorize, Select;
    if Claim(desc, proofs, ctx).Ok? {
      var step := ClaimPicks(desc, proofs, pool, ctx);
      var i := MatchFrom(desc, None, step, pool, Checks(pool, ctx));
      assert Supports(desc, step.source.delegation, step.source.capability, step.value, ctx);
    }
    if d, cap, v :| d in pool && Validate(d, pool, ctx).Ok? && Supports(desc, d, cap, v, ctx) {
      var i :| 0 <= i < |pool| && pool[i] == d;
      SourcesFind(pool, Checks(pool, ctx), i, cap);
      SelectFinds(desc, None, Sources(pool, Checks(pool, ctx)), Source(cap, d), v);
      var steps := Select(desc, None, Sources(pool, Checks(pool, ctx))).matches;
      ClaimGrants(desc, Match(Source(cap, d), v), proofs, pool, steps, ctx);
    }
  }

  /** So adding a proof loses a claim exactly when every member that supports it, old or
      new, is refused in the larger pool. */
  lemma ClaimLostIff(desc: Descriptor, proofs: seq<Proof>, q: Proof, pool: seq<Delegation>, ctx: Context)
    requires Unrevoked(ctx) && Claim(desc, proofs, ctx).Ok? && pool == Resolved(proofs + [q], ctx)
    ensures Claim(desc, proofs + [q], ctx).Err? <==>
      forall d, cap, v :: d in pool && Supports(desc, d, cap, v, ctx) ==> Validate(d, pool, ctx).Err?
  {
    hide Claim, Validate, Supports;
    ClaimIffSupported(desc, proofs + [q], pool, ctx);
  }

  lemma InTimeWhenValid(d: Delegation, pool: seq<Delegation>, ctx: Context)
    requires Validate(d, pool, ctx).Ok?
    ensures ctx.timeBounds(d.ucan) == InTime
  {
  }

  lemma NamedOrNew(d: Delegation, e: Delegation, cap: Capability, before: seq<Delegation>, q: Delegation, ctx: Context)
    requires Unrevoked(ctx) && Quiet(q, before)
    ensures NamedBy(d, e, cap, before + [q], ctx) <==>
      NamedBy(d, e, cap, before, ctx) || (e == q && NamedBy(d, q, cap, before + [q], ctx))
  {
    hide Validate, Quiet;
    if e in before {
      VerdictUnchanged(e, before, q, ctx);
    }
  }

  // ---- Derivation ----

  /** Derivation by resource patterns chains, except through a pattern and that pattern
      with one more star. */
  lemma DerivesChainsIff(b: Capability, c: Capability)
    requires DefaultDerives(b, c)
    ensures (forall a :: DefaultDerives(a, b) ==> DefaultDerives(a, c))
       <==> !(HasSuffix(b.with, "*") && c.with == b.with + "*")
  {
    if HasSuffix(b.with, "*") && c.with == b.with + "*" {
      var n := |b.with| - 1;
      var a := b.(with := b.with[..n]);
      assert c.with[..|c.with| - 1] == b.with;
      assert DefaultDerives(a, b) && !DefaultDerives(a, c);
    } else {
      forall a | DefaultDerives(a, b)
        ensures DefaultDerives(a, c)
      {
        DerivesChains(a, b, c);
      }
    }
  }

  lemma DerivesChains(a: Capability, b: Capability, c: Capability)
    requires DefaultDerives(a, b) && DefaultDerives(b, c)
    requires !(HasSuffix(b.with, "*") && c.with == b.with + "*")
    ensures DefaultDerives(a, c)
  {
    if HasSuffix(b.with, "*") && HasSuffix(c.with, "*") {
      var p, q := c.with[..|c.with| - 1], b.with[..|b.with| - 1];
      assert b.with == q + "*" && c.with == p + "*";
      assert p == b.with[..|p|];
      if |p| <= |q| {
        assert p == q[..|p|] == a.with[..|p|];
      }
    }
  }

  // ---- An attestation that fails closes the fallback to a resolved key ----

  const ALICE: Did := "did:mailto:alice"

  /** Everything is in time, every signature verifies, every DID resolves to a key. */
  function Resolving(revoked: Auth -> bool): Context {
    Context(
      Verifier(SERVICE, "service"),
      IsSelfIssued,
      revoked,
      _ => None,
      did => Some(Verifier(did, did)),
      _ => Some(BOB),
      (u, key) => Verified,
      u => InTime,
      [])
  }

  predicate Never(a: Auth) {
    false
  }

  function FromAlice(): Delegation {
    Delegation(Ucan(ALICE, SERVICE, Capability("store/add", ALICE, Fields("")), [], [], None, 0, ""), [], [])
  }

  /** Bob, whom nobody authorized to, attests Alice's delegation for the service. */
  function BobAttests(): Delegation {
    Delegation(
      Ucan(BOB, SERVICE, Capability("ucan/attest", SERVICE, Attestation(FromAlice().Link())), [], [], None, 0, ""),
      [], [])
  }

  lemma AliceNeedsSession(ctx: Context)
    requires ctx == Resolving(Never)
    ensures NeedsSession(FromAlice(), ctx) && Unrevoked(ctx) && VerifyResolvedKey(FromAlice(), ctx).Ok?
  {
    assert ALICE[4] == 'm' && BOB[..8] == "did:key:";
  }

  /** Adding a proof to the pool can turn an accepted claim into a refused one. */
  lemma AttestationCanHurt()
    ensures Claim(StoreAdd(), [Full(FromAlice())], Resolving(Never)).Ok?
    ensures Claim(StoreAdd(), [Full(FromAlice()), Full(BobAttests())], Resolving(Never)).Err?
  {
    AloneAccepted(FromAlice(), Resolving(Never));
    TogetherRefused(FromAlice(), BobAttests(), Resolving(Never));
  }

  lemma AloneAccepted(d: Delegation, ctx: Context)
    requires d == FromAlice() && ctx == Resolving(Never)
    ensures Claim(StoreAdd(), [Full(d)], ctx).Ok?
  {
    var pool := [d];
    assert Resolved([Full(d)], ctx) == pool;
    AliceNeedsSession(ctx);
    assert forall p :: p in SessionPool(d, pool) ==> p in pool;
    FallbackIff(d, pool, ctx);
    AliceStands(d, pool, ctx);
    var steps := Select(StoreAdd(), None, Sources(pool, Checks(pool, ctx))).matches;
    ClaimGrants(StoreAdd(), Match(Source(d.ucan.first, d), d.ucan.first), [Full(d)], pool, steps, ctx);
  }

  lemma AliceStands(d: Delegation, pool: seq<Delegation>, ctx: Context)
    requires d == FromAlice() && ctx == Resolving(Never) && pool == [d] && Validate(d, pool, ctx).Ok?
    ensures var step := Match(Source(d.ucan.first, d), d.ucan.first);
      && step in Select(StoreAdd(), None, Sources(pool, Checks(pool, ctx))).matches
      && Stands(StoreAdd(), step, pool, ctx)
  {
    SourcesFind(pool, Checks(pool, ctx), 0, d.ucan.first);
    SelectFinds(StoreAdd(), None, Sources(pool, Checks(pool, ctx)), Source(d.ucan.first, d), d.ucan.first);
  }

  lemma TogetherRefused(d: Delegation, q: Delegation, ctx: Context)
    requires d == FromAlice() && q == BobAttests() && ctx == Resolving(Never)
    ensures Claim(StoreAdd(), [Full(d), Full(q)], ctx).Err?
  {
    var proofs, pool := [Full(d), Full(q)], [d, q];
    assert proofs[..1] == [Full(d)] && Resolved([Full(d)], ctx) == [d];
    assert Resolved(proofs, ctx) == pool;
    if Claim(StoreAdd(), proofs, ctx).Ok? {
      var step := ClaimPicks(StoreAdd(), proofs, pool, ctx);
      StoreStepIsAlice(d, q, step, pool, ctx);
      AliceRefused(d, q, pool, ctx);
    }
  }

  lemma StoreStepIsAlice(d: Delegation, q: Delegation, step: Match, pool: seq<Delegation>, ctx: Context)
    requires d == FromAlice() && q == BobAttests() && pool == [d, q]
    requires step in Select(StoreAdd(), None, Sources(pool, Checks(pool, ctx))).matches
    ensures Validate(d, pool, ctx).Ok?
  {
    var i := MatchFrom(StoreAdd(), None, step, pool, Checks(pool, ctx));
    assert step.source.capability.can == "store/add";
    assert q.ucan.Capabilities() == [q.ucan.first];
    assert step.source.delegation == d;
  }

  lemma AliceRefused(d: Delegation, q: Delegation, pool: seq<Delegation>, ctx: Context)
    requires d == FromAlice() && q == BobAttests() && pool == [d, q] && ctx == Resolving(Never)
    ensures Validate(d, pool, ctx).Err?
  {
    var session := SessionPool(d, pool);
    AliceNeedsSession(ctx);
    BobIsAccepted(q, session, ctx);
    assert q in pool && d.ucan != q.ucan && q in session;
    assert NamedBy(d, q, q.ucan.first, session, ctx);
    FallbackIff(d, pool, ctx);
    if VerifySession(d, pool, ctx).Ok? {
      SessionSound(d, pool, ctx);
      BobHasNoAuthority(d, q, VerifySession(d, pool, ctx).value, session, ctx);
    }
  }

  lemma BobIsAccepted(q: Delegation, session: seq<Delegation>, ctx: Context)
    requires q == BobAttests() && ctx == Resolving(Never)
    ensures Validate(q, session, ctx).Ok?
  {
    assert BOB[..8] == "did:key:";
  }

  lemma BobHasNoAuthority(d: Delegation, q: Delegation, a: Auth, session: seq<Delegation>, ctx: Context)
    requires q == BobAttests() && ctx == Resolving(Never)
    requires forall p :: p in session ==> p == q
    ensures !Valid(false, AttestationOf(d.Link(), ctx), None, a, session, ctx)
  {
    if Valid(false, AttestationOf(d.Link(), ctx), None, a, session, ctx) {
      assert a.Delegation() == q;
      assert q.ucan.Capabilities() == [q.ucan.first];
      assert ProofPool(q, ctx) == [];
      assert SERVICE != BOB;
    }
  }

  // ---- A revoked first chain hides the second ----

  /** Two tokens by which the owner delegates to Bob, told apart by their nonce. */
  function Grant(nonce: string): Ucan {
    Ucan(OWNER, BOB, OnOwner(), [], [], None, 0, nonce)
  }

  function Blocks(): seq<Block> {
    [Token(Grant("1")), Token(Grant("2"))]
  }

  function GrantView(nonce: string): Delegation {
    Delegation(Grant(nonce), Blocks(), [])
  }

  function BobInvokes(): Delegation {
    Delegation(
      Ucan(BOB, SERVICE, OnOwner(), [], [Cid(Token(Grant("1"))), Cid(Token(Grant("2")))], None, 0, ""),
      Blocks(), [])
  }

  predicate ThroughFirst(a: Auth) {
    a.proofs != [] && a.proofs[0].Delegation().ucan.rest == "1"
  }

  /** An unrevoked proof exists, but the claim is refused. */
  lemma RevocationCanHide()
    ensures Claim(StoreAdd(), [Full(BobInvokes())], Resolving(ThroughFirst)).Err?
    ensures exists a :: Valid(false, StoreAdd(), None, a, [BobInvokes()], Resolving(ThroughFirst)) && !ThroughFirst(a)
  {
    var ctx := Resolving(ThroughFirst);
    SecondChainValid(BobInvokes(), ctx);
    assert !ThroughFirst(SecondChain(BobInvokes()));
    FirstChainFound(BobInvokes(), ctx);
  }

  lemma GrantsPool(d: Delegation, ctx: Context)
    requires d == BobInvokes() && ctx == Resolving(ThroughFirst)
    ensures ProofPool(d, ctx) == [GrantView("1"), GrantView("2")]
  {
    var one, two := GrantView("1"), GrantView("2");
    var proofs := ProofsOfView(d);
    assert d.Blocks() == Blocks();
    assert Token(Grant("1")) == Blocks()[0] && Token(Grant("2")) == Blocks()[1];
    assert proofs == [Full(one), Full(two)];
    assert AsProofs([one, two]) == proofs;
    ResolvedAsProofs([one, two], ctx);
    BothAligned(d, one, two);
  }

  lemma BothAligned(d: Delegation, one: Delegation, two: Delegation)
    requires one.ucan.audience == d.ucan.issuer && two.ucan.audience == d.ucan.issuer
    ensures Aligned(d, [one, two]) == [one, two]
  {
    assert [one, two][..1] == [one] && [one][..0] == [];
    assert Aligned(d, []) == [];
    assert Aligned(d, [one]) == [one];
  }

  lemma KeyAccepted(d: Delegation, pool: seq<Delegation>, ctx: Context)
    requires ctx == Resolving(ThroughFirst) && IsKey(d.ucan.issuer)
    ensures Validate(d, pool, ctx) == Ok(None) && Signed(d, ctx)
  {
  }

  function SecondChain(d: Delegation): Auth {
    Auth(
      Match(Source(OnOwner(), d), OnOwner()),
      [Auth(Match(Source(OnOwner(), GrantView("2")), OnOwner()), [], [])],
      [])
  }

  lemma GrantValid(g: Delegation, pool: seq<Delegation>, ctx: Context)
    requires ctx == Resolving(ThroughFirst) && g in pool && g.ucan == Grant("2")
    ensures Valid(false, StoreAdd(), Some(OnOwner()), Auth(Match(Source(OnOwner(), g), OnOwner()), [], []), pool, ctx)
  {
    assert OWNER[..8] == "did:key:";
    KeyAccepted(g, pool, ctx);
    assert g.ucan.Capabilities()[0] == OnOwner();
  }

  lemma SecondChainValid(d: Delegation, ctx: Context)
    requires d == BobInvokes() && ctx == Resolving(ThroughFirst)
    ensures Valid(false, StoreAdd(), None, SecondChain(d), [d], ctx) && !ThroughFirst(SecondChain(d))
  {
    GrantsPool(d, ctx);
    GrantValid(ProofPool(d, ctx)[1], ProofPool(d, ctx), ctx);
    assert BOB[..8] == "did:key:";
    KeyAccepted(d, [d], ctx);
    assert d.ucan.Capabilities()[0] == OnOwner() && d in [d];
  }

  lemma FirstChainFound(d: Delegation, ctx: Context)
    requires d == BobInvokes() && ctx == Resolving(ThroughFirst)
    ensures Claim(StoreAdd(), [Full(d)], ctx).Err?
  {
    var pool := [d];
    assert Resolved([Full(d)], ctx) == pool;
    if Claim(StoreAdd(), [Full(d)], ctx).Ok? {
      var step := ClaimPicks(StoreAdd(), [Full(d)], pool, ctx);
      OnlyStep(d, step, pool, ctx);
      FirstGrantFound(d, step, ctx);
      RevokedChain(step, Sessions(Checks(pool, ctx)), ctx);
    }
  }

  lemma OnlyStep(d: Delegation, step: Match, pool: seq<Delegation>, ctx: Context)
    requires d == BobInvokes() && pool == [d]
    requires step in Select(StoreAdd(), None, Sources(pool, Checks(pool, ctx))).matches
    ensures step == Match(Source(OnOwner(), d), OnOwner())
  {
    var i := MatchFrom(StoreAdd(), None, step, pool, Checks(pool, ctx));
    assert d.ucan.Capabilities() == [OnOwner()];
  }

  lemma RevokedChain(step: Match, atts: seq<Auth>, ctx: Context)
    requires ctx == Resolving(ThroughFirst) && !ctx.canIssue(step.value, step.source.delegation.ucan.issuer)
    requires Authorize(StoreAdd(), step, ctx).Ok?
      && Authorize(StoreAdd(), step, ctx).value.Delegation() == GrantView("1")
    ensures Review(Extend(StoreAdd(), step, atts, ctx), ctx).Withdrawn?
  {
  }

  lemma FirstGrantFound(d: Delegation, step: Match, ctx: Context)
    requires d == BobInvokes() && ctx == Resolving(ThroughFirst) && step == Match(Source(OnOwner(), d), OnOwner())
    ensures !ctx.canIssue(step.value, d.ucan.issuer)
    ensures Authorize(StoreAdd(), step, ctx).Ok?
      && Authorize(StoreAdd(), step, ctx).value.Delegation() == GrantView("1")
  {
    var pool := ProofPool(d, ctx);
    var checks := Checks(pool, ctx);
    var steps := Select(StoreAdd(), Some(OnOwner()), Sources(pool, checks)).matches;
    GrantsPool(d, ctx);
    FirstStep(pool, steps, ctx);
    var attempts := ProofAttempts(StoreAdd(), steps, Sessions(checks), ctx);
    assert attempts[0].Granted?;
    assert FirstGranted(attempts) == Some(attempts[0].auth);
  }

  lemma FirstStep(pool: seq<Delegation>, steps: seq<Match>, ctx: Context)
    requires pool == [GrantView("1"), GrantView("2")] && ctx == Resolving(ThroughFirst)
    requires steps == Select(StoreAdd(), Some(OnOwner()), Sources(pool, Checks(pool, ctx))).matches
    ensures steps != [] && steps[0] == Match(Source(OnOwner(), pool[0]), OnOwner())
  {
    assert OWNER[..8] == "did:key:";
    KeyAccepted(pool[0], pool, ctx);
    KeyAccepted(pool[1], pool, ctx);
    var checks := Checks(pool, ctx);
    GrantSources(pool, checks);
    GrantSteps([Source(OnOwner(), pool[0]), Source(OnOwner(), pool[1])]);
  }

  lemma GrantSources(pool: seq<Delegation>, checks: seq<Verdict>)
    requires pool == [GrantView("1"), GrantView("2")] && |checks| == 2 && checks[0].Ok? && checks[1].Ok?
    ensures Sources(pool, checks) == [Source(OnOwner(), pool[0]), Source(OnOwner(), pool[1])]
  {
    assert pool[..1] == [pool[0]] && checks[..1] == [checks[0]];
    assert pool[0].ucan.Capabilities() == [OnOwner()] && pool[1].ucan.Capabilities() == [OnOwner()];
    assert Sources([pool[0]], [checks[0]]) == [Source(OnOwner(), pool[0])];
  }

  lemma {:induction false} GrantSteps(sources: seq<Source>)
    requires |sources| == 2 && sources[0].capability == OnOwner() && sources[1].capability == OnOwner()
    ensures Select(StoreAdd(), Some(OnOwner()), sources).matches
      == [Match(sources[0], OnOwner()), Match(sources[1], OnOwner())]
  {
    assert sources[..1] == [sources[0]] && sources[..1][..0] == [];
    assert Select(StoreAdd(), Some(OnOwner()), []) == Selection([], [], []);
    assert Answer(StoreAdd(), Some(OnOwner()), OnOwner()) == Ok(OnOwner());
    var first := Select(StoreAdd(), Some(OnOwner()), sources[..1]);
    assert first.matches == [Match(sources[0], OnOwner())];
    assert Select(StoreAdd(), Some(OnOwner()), sources).matches == first.matches + [Match(sources[1], OnOwner())];
  }
}
