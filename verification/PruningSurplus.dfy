/** A draft for which pruning keeps an attestation that nothing needs, although it stands
    on the first level: a session records every session of its own pool. */
module PruningSurplus {
  import opened Graph
  import opened Capabilities
  import opened Validation
  import opened ProofTrees
  import opened ProofOrder
  import opened Export
  import opened Extraction
  import opened Pruning
  import opened PruningTheorems
  import opened Boundaries
  import opened ValidatorTheorems
  import opened Minimality
  import opened Records
  import opened Scenario
  import Limits = PruningLimits

  const MAIL: Did := "did:mailto:mail"
  const OTHER: Did := "did:mailto:other"

  function OnMail(): Capability {
    Capability("store/add", MAIL, Fields(""))
  }

  function Issued(issuer: Did, cap: Capability): Ucan {
    Ucan(issuer, BOB, cap, [], [], None, 0, "")
  }

  /** The proof, from a principal without a key of its own. */
  function MailProof(): Ucan {
    Issued(MAIL, OnMail())
  }

  /** Another such principal's delegation, which looks like an attestation but serves nobody. */
  function Bystander(): Ucan {
    Issued(OTHER, Capability("ucan/attest", OTHER, Fields("")))
  }

  /** The authority attests a token. */
  function Attested(u: Ucan): Ucan {
    Issued(SERVICE, AttestingCap(u))
  }

  function AttestingCap(u: Ucan): Capability {
    Capability("ucan/attest", SERVICE, Attestation(Cid(Token(u))))
  }

  function Cited(): seq<Block> {
    [Token(MailProof()), Token(Attested(MailProof())), Token(Bystander()), Token(Attested(Bystander()))]
  }

  function Shown(u: Ucan): Delegation {
    Delegation(u, Cited(), [])
  }

  function Draft(): Delegation {
    Shown(Ucan(BOB, SERVICE, OnMail(), [], [Cid(Token(MailProof())), Cid(Token(Attested(MailProof()))),
      Cid(Token(Bystander())), Cid(Token(Attested(Bystander())))], None, 0, ""))
  }

  function Pool(): seq<Delegation> {
    [Shown(MailProof()), Shown(Attested(MailProof())), Shown(Bystander()), Shown(Attested(Bystander()))]
  }

  lemma Cast()
    ensures !IsKey(MAIL) && !IsKey(OTHER) && !IsKey(SERVICE) && IsKey(BOB)
    ensures MAIL != OTHER && MAIL != SERVICE && OTHER != SERVICE && MAIL != BOB
    ensures MailProof() != Bystander()
  {
    assert MAIL[4] == 'm' && OTHER[4] == 'm' && SERVICE[4] == 'w' && BOB[..8] == "did:key:" && BOB[4] == 'k';
    assert MAIL[11] == 'm' && OTHER[11] == 'o';
    assert MailProof().issuer == MAIL && Bystander().issuer == OTHER;
  }

  lemma {:induction false} AllAligned(d: Delegation, pool: seq<Delegation>)
    requires forall p :: p in pool ==> p.ucan.audience == d.ucan.issuer
    ensures Aligned(d, pool) == pool
  {
    if pool != [] {
      var n := |pool| - 1;
      assert pool == pool[..n] + [pool[n]] && pool[n] in pool;
      AllAligned(d, pool[..n]);
    }
  }

  lemma DraftPool(ctx: Context)
    requires ctx == Limits.PrunerContext()
    ensures ProofPool(Draft(), ctx) == Pool()
  {
    assert Draft().Blocks() == Cited();
    assert Cited()[0] == Token(MailProof()) && Cited()[1] == Token(Attested(MailProof()));
    assert Cited()[2] == Token(Bystander()) && Cited()[3] == Token(Attested(Bystander()));
    assert ProofsOfView(Draft()) == AsProofs(Pool());
    ResolvedAsProofs(Pool(), ctx);
    AllAligned(Draft(), Pool());
  }

  // ---- Sessions ----

  /** The authority's attestation of `u` is all it takes to accept it. */
  lemma AcceptedBy(u: Ucan, pool: seq<Delegation>, ctx: Context) returns (s: Auth)
    requires ctx == Limits.PrunerContext() && (u == MailProof() || u == Bystander())
    requires Shown(Attested(u)) in SessionPool(Shown(u), pool)
    ensures VerifySession(Shown(u), pool, ctx) == Ok(s) && Validate(Shown(u), pool, ctx) == Ok(Some(s))
  {
    hide Claim, VerifySession, NamedBy, Limits.PrunerContext;
    var d, e := Shown(u), Shown(Attested(u));
    AttestationStands(u, SessionPool(d, pool), ctx);
    SessionIff(d, pool, ctx);
    assert NamedBy(d, e, AttestingCap(u), SessionPool(d, pool), ctx) && MayAttest(d, e, AttestingCap(u), ctx);
    s := VerifySession(d, pool, ctx).value;
    SessionAccepts(u, pool, ctx);
  }

  lemma AttestationStands(u: Ucan, session: seq<Delegation>, ctx: Context)
    requires ctx == Limits.PrunerContext() && Shown(Attested(u)) in session
    ensures NamedBy(Shown(u), Shown(Attested(u)), AttestingCap(u), session, ctx)
    ensures MayAttest(Shown(u), Shown(Attested(u)), AttestingCap(u), ctx) && Unrevoked(ctx)
  {
    hide Authorize, Validate;
    AuthoritySigns(Shown(Attested(u)), session, ctx);
    assert Attested(u).Capabilities()[0] == AttestingCap(u);
    assert AttestingCap(u) in Shown(Attested(u)).ucan.Capabilities();
  }

  lemma AuthoritySigns(e: Delegation, pool: seq<Delegation>, ctx: Context)
    requires ctx == Limits.PrunerContext() && e.ucan.issuer == SERVICE
    ensures Validate(e, pool, ctx).Ok?
  {
    Cast();
  }

  lemma SessionAccepts(u: Ucan, pool: seq<Delegation>, ctx: Context)
    requires ctx == Limits.PrunerContext() && (u == MailProof() || u == Bystander())
    requires VerifySession(Shown(u), pool, ctx).Ok?
    ensures Validate(Shown(u), pool, ctx) == Ok(Some(VerifySession(Shown(u), pool, ctx).value))
  {
    hide VerifySession;
    Cast();
  }

  /** And that attestation is the one the session stands on. */
  lemma StandsOn(u: Ucan, pool: seq<Delegation>, s: Auth, ctx: Context)
    requires ctx == Limits.PrunerContext() && (u == MailProof() || u == Bystander())
    requires VerifySession(Shown(u), pool, ctx) == Ok(s) && forall p :: p in pool ==> p in Pool()
    ensures s.Delegation() == Shown(Attested(u)) && s.Capability().nb == Attestation(Cid(Token(u)))
  {
    hide VerifySession, Accepted;
    Cast();
    var desc := AttestationOf(Shown(u).Link(), ctx);
    SessionSound(Shown(u), pool, ctx);
    TreeFacts(false, desc, None, s, SessionPool(Shown(u), pool), ctx);
    ParsedAttestation(Shown(u).Link(), s.step.source.capability, s.Capability(), ctx);
    assert s.Delegation() in SessionPool(Shown(u), pool)
        && s.step.source.capability in s.Delegation().ucan.Capabilities();
    assert s.step.source.capability == s.Delegation().ucan.first;
  }

  lemma RecordedIn(d: Delegation, pool: seq<Delegation>, s: Auth, ctx: Context)
    requires d in pool && Validate(d, pool, ctx) == Ok(Some(s))
    ensures s in Sessions(Checks(pool, ctx))
  {
    hide Validate;
    var i :| 0 <= i < |pool| && pool[i] == d;
    assert Checks(pool, ctx)[i] == Ok(Some(s));
    SessionsHas(Checks(pool, ctx), s);
  }

  /** The session of the proof records the bystander's session, which has no part in it. */
  lemma ProofSession(ctx: Context) returns (s: Auth, t: Auth)
    requires ctx == Limits.PrunerContext()
    ensures Validate(Shown(MailProof()), Pool(), ctx) == Ok(Some(s)) && s in Sessions(Checks(Pool(), ctx))
    ensures s.Delegation() == Shown(Attested(MailProof())) && s.Capability().nb == Attestation(Cid(Token(MailProof())))
    ensures t in s.attestations && t.Delegation() == Shown(Attested(Bystander()))
  {
    hide Validate, VerifySession, Sessions, Claim, Limits.PrunerContext;
    Cast();
    var p, x := Shown(MailProof()), Shown(Bystander());
    var session := SessionPool(p, Pool());
    assert Pool()[0] == p && Pool()[1] == Shown(Attested(MailProof())) && Pool()[2] == x
        && Pool()[3] == Shown(Attested(Bystander()));
    Distinct4();
    s := AcceptedBy(MailProof(), Pool(), ctx);
    RecordedIn(p, Pool(), s, ctx);
    StandsOn(MailProof(), Pool(), s, ctx);
    t := AcceptedBy(Bystander(), session, ctx);
    RecordedIn(x, session, t, ctx);
    StandsOn(Bystander(), session, t, ctx);
    SessionRecords(p, Pool(), ctx);
  }

  lemma Distinct4()
    ensures MailProof() != Attested(MailProof()) && MailProof() != Bystander() && MailProof() != Attested(Bystander())
    ensures Bystander() != Attested(MailProof()) && Bystander() != Attested(Bystander())
    ensures Attested(MailProof()) != Attested(Bystander())
  {
    Cast();
    assert Attested(MailProof()).issuer == SERVICE && Attested(Bystander()).issuer == SERVICE;
    assert Attested(MailProof()).first == AttestingCap(MailProof())
        && Attested(Bystander()).first == AttestingCap(Bystander());
  }

  lemma SessionRecords(d: Delegation, pool: seq<Delegation>, ctx: Context)
    requires VerifySession(d, pool, ctx).Ok?
    ensures VerifySession(d, pool, ctx).value.attestations == Sessions(Checks(SessionPool(d, pool), ctx))
  {
    hide Claim, Sessions;
    var session := SessionPool(d, pool);
    ResolvedAsProofs(session, ctx);
    ClaimRecords(AttestationOf(d.Link(), ctx), AsProofs(session), ctx);
  }

  // ---- The draft's tree ----

  /** The proof is granted as it stands. */
  lemma DraftAuthorized(ctx: Context) returns (b: Auth)
    requires ctx == Limits.PrunerContext()
    ensures Authorize(StoreAdd(), OnDraft(), ctx) == Ok(b) && b.Delegation() == Shown(MailProof())
    ensures b.attestations == AttestationsFor(Cid(Token(MailProof())), Sessions(Checks(Pool(), ctx)))
  {
    hide Authorize, Select, Sources, Sessions, Validate, Limits.PrunerContext, Extend;
    DraftPool(ctx);
    var s, t := ProofSession(ctx);
    var pool := Pool();
    var steps := Select(StoreAdd(), Some(OnMail()), Sources(pool, Checks(pool, ctx))).matches;
    ProofMatches(ctx);
    MailIssues(AttestationsFor(Cid(Token(MailProof())), Sessions(Checks(pool, ctx))), ctx);
    AuthorizeGrants(StoreAdd(), OnProof(), OnDraft(), pool, steps, ctx);
    b := Authorize(StoreAdd(), OnDraft(), ctx).value;
    var step := AuthorizePicks(StoreAdd(), OnDraft(), pool, ctx);
    OnlyProof(step, ctx);
    ExtendShape(StoreAdd(), step, AttestationsFor(step.source.delegation.Link(), Sessions(Checks(pool, ctx))), b, ctx);
  }

  function OnDraft(): Match {
    Match(Source(OnMail(), Draft()), OnMail())
  }

  function OnProof(): Match {
    Match(Source(OnMail(), Shown(MailProof())), OnMail())
  }

  lemma ProofMatches(ctx: Context)
    requires ctx == Limits.PrunerContext() && Validate(Shown(MailProof()), Pool(), ctx).Ok?
    ensures OnProof() in Select(StoreAdd(), Some(OnMail()), Sources(Pool(), Checks(Pool(), ctx))).matches
  {
    hide Validate, Select, Sources;
    assert MailProof().Capabilities()[0] == OnMail();
    assert Pool()[0] == Shown(MailProof());
    SourcesFind(Pool(), Checks(Pool(), ctx), 0, OnMail());
    SelectFinds(StoreAdd(), Some(OnMail()), Sources(Pool(), Checks(Pool(), ctx)),
      Source(OnMail(), Shown(MailProof())), OnMail());
  }

  lemma MailIssues(atts: seq<Auth>, ctx: Context)
    requires ctx == Limits.PrunerContext()
    ensures Extend(StoreAdd(), OnProof(), atts, ctx).Granted?
  {
    hide Authorize;
  }

  lemma OnlyProof(step: Match, ctx: Context)
    requires step in Select(StoreAdd(), Some(OnMail()), Sources(Pool(), Checks(Pool(), ctx))).matches
    ensures step.source.delegation == Shown(MailProof())
  {
    hide Validate, Select, Sources;
    var i := MatchFrom(StoreAdd(), Some(OnMail()), step, Pool(), Checks(Pool(), ctx));
    NotForStore(step.source.capability, step.value);
    assert Pool()[i].ucan.Capabilities() == [Pool()[i].ucan.first];
  }

  lemma NotForStore(cap: Capability, value: Capability)
    requires Answer(StoreAdd(), Some(OnMail()), cap) == Ok(value)
    ensures cap.can != "ucan/attest"
  {
    assert "ucan/attest"[0] == 'u' && "store/add"[0] == 's';
  }

  /** The draft is accepted, and its tree has the bystander's attestation on its first level. */
  lemma DraftAccepted(ctx: Context) returns (a: Auth)
    requires ctx == Limits.PrunerContext()
    ensures Plain(ctx) && Claim(StoreAdd(), [Full(Draft())], ctx) == Ok(a) && !SelfIssuable(StoreAdd(), Draft(), ctx)
    ensures Shown(MailProof()) in LevelOf(a.proofs) && Shown(Attested(MailProof())) in LevelOf(a.proofs)
    ensures Shown(Attested(Bystander())) in LevelOf(a.proofs)
  {
    hide Claim, Authorize, Select, Sources, Sessions, Validate, Extend;
    var b := DraftAuthorized(ctx);
    a := DraftClaimed(b, ctx);
    var s, t := ProofSession(ctx);
    assert s in b.attestations;
    OnLevel(a, b, s, t);
  }

  lemma OnLevel(a: Auth, b: Auth, s: Auth, t: Auth)
    requires a.proofs == [b] && s in b.attestations && t in s.attestations
    ensures b.Delegation() in LevelOf(a.proofs) && s.Delegation() in LevelOf(a.proofs)
      && t.Delegation() in LevelOf(a.proofs)
  {
    var i :| 0 <= i < |s.attestations| && s.attestations[i] == t;
    var j :| 0 <= j < |b.attestations| && b.attestations[j] == s;
    LevelOfHave(s.attestations, i, t.Delegation());
    LevelOfHave(b.attestations, j, t.Delegation());
    LevelOfHave(b.attestations, j, s.Delegation());
    assert a.proofs[0] == b;
    LevelOfHave(a.proofs, 0, t.Delegation());
    LevelOfHave(a.proofs, 0, s.Delegation());
    LevelOfHave(a.proofs, 0, b.Delegation());
  }

  lemma DraftClaimed(b: Auth, ctx: Context) returns (a: Auth)
    requires ctx == Limits.PrunerContext() && Authorize(StoreAdd(), OnDraft(), ctx) == Ok(b)
    ensures Plain(ctx) && Claim(StoreAdd(), [Full(Draft())], ctx) == Ok(a) && a.proofs == [b]
    ensures !SelfIssuable(StoreAdd(), Draft(), ctx)
  {
    hide Claim, Authorize, Select, Sources, Sessions, Validate, Extend, Checks, SelfIssuable;
    var pool := [Draft()];
    ResolvedAsProofs(pool, ctx);
    assert AsProofs(pool) == [Full(Draft())];
    DraftStands(b, ctx);
    ClaimGrants(StoreAdd(), OnDraft(), [Full(Draft())], pool,
      Select(StoreAdd(), None, Sources(pool, Checks(pool, ctx))).matches, ctx);
    a := Claim(StoreAdd(), [Full(Draft())], ctx).value;
    var step := ClaimPicks(StoreAdd(), [Full(Draft())], pool, ctx);
    OnlyDraft(step, ctx);
    ReviewKeeps(Extend(StoreAdd(), step, Sessions(Checks(pool, ctx)), ctx), a, ctx);
    ExtendShape(StoreAdd(), step, Sessions(Checks(pool, ctx)), a, ctx);
    OwnsNothing(ctx);
  }

  lemma OnlyDraft(step: Match, ctx: Context)
    requires step in Select(StoreAdd(), None, Sources([Draft()], Checks([Draft()], ctx))).matches
    ensures step == OnDraft()
  {
    hide Select, Sources, Validate;
    var i := MatchFrom(StoreAdd(), None, step, [Draft()], Checks([Draft()], ctx));
    assert Draft().ucan.Capabilities() == [OnMail()];
  }

  lemma OwnsNothing(ctx: Context)
    requires ctx == Limits.PrunerContext()
    ensures Plain(ctx) && !ctx.canIssue(OnMail(), BOB) && !SelfIssuable(StoreAdd(), Draft(), ctx)
  {
    Cast();
    assert Draft().ucan.Capabilities() == [OnMail()];
  }

  lemma DraftStands(b: Auth, ctx: Context)
    requires ctx == Limits.PrunerContext() && Authorize(StoreAdd(), OnDraft(), ctx) == Ok(b)
    ensures OnDraft() in Select(StoreAdd(), None, Sources([Draft()], Checks([Draft()], ctx))).matches
    ensures Review(Extend(StoreAdd(), OnDraft(), Sessions(Checks([Draft()], ctx)), ctx), ctx).Granted?
  {
    hide Authorize, Select, Sources, Sessions, Validate;
    var pool := [Draft()];
    Cast();
    BobSigns(ctx);
    assert Draft().ucan.Capabilities()[0] == OnMail();
    SourcesFind(pool, Checks(pool, ctx), 0, OnMail());
    SelectFinds(StoreAdd(), None, Sources(pool, Checks(pool, ctx)), Source(OnMail(), Draft()), OnMail());
  }

  lemma BobSigns(ctx: Context)
    requires ctx == Limits.PrunerContext()
    ensures Validate(Draft(), [Draft()], ctx).Ok?
  {
    Cast();
  }

  // ---- What pruning returns ----

  /** Every token below the draft cites nothing. */
  lemma BelowDraft(l: Link)
    requires Descends(Draft().Link(), l)
    ensures l == Draft().Link() || (l.content.Token? && l.content.ucan.proofs == [])
  {
    if l != Draft().Link() {
      var open :| Reaches(Draft().Link(), l, open);
      var next := ReachesSplit(Draft().Link(), l, open);
      assert next in Draft().ucan.proofs;
      if l != next {
        var further := ReachesSplit(next, l, open);
      }
    }
  }

  lemma DraftExports(n: Delegation)
    requires Descends(Draft().Link(), n.Link())
    ensures Exported(n, []).Some?
  {
    forall m | Descends(n.Link(), m)
      ensures m.content.Token?
    {
      DescendsThrough(Draft().Link(), n.Link(), m);
      BelowDraft(m);
    }
    TokensExport(n.Link(), n.blocks, []);
  }

  lemma Pruned(a: Auth, ctx: Context) returns (kept: seq<Delegation>)
    requires ctx == Limits.PrunerContext() && Claim(StoreAdd(), [Full(Draft())], ctx) == Ok(a)
    ensures PruneProofs(StoreAdd(), Draft(), ctx) == Ok(kept)
  {
    hide Claim, Exported, Limits.PrunerContext;
    AccessTree(StoreAdd(), Draft(), a, ctx);
    var all := Collect([], Nodes(a));
    forall n | n in all
      ensures Exported(n, []).Some?
    {
      Limits.CollectFrom([], Nodes(a), n);
      NodesDescend(Draft(), a, n, ctx);
      DraftExports(n);
    }
    Limits.ReexportOk(all, Draft().Link());
    kept := PruneProofs(StoreAdd(), Draft(), ctx).value;
  }

  lemma LevelKept(a: Auth, kept: seq<Delegation>, n: Delegation, ctx: Context) returns (i: nat)
    requires ctx == Limits.PrunerContext() && Claim(StoreAdd(), [Full(Draft())], ctx) == Ok(a)
    requires PruneProofs(StoreAdd(), Draft(), ctx) == Ok(kept) && n in LevelOf(a.proofs)
    ensures i < |kept| && kept[i].Link() == n.Link() && n.ucan.audience == BOB
  {
    hide Claim, PruneProofs, Limits.PrunerContext;
    AccessTree(StoreAdd(), Draft(), a, ctx);
    LevelAligned(Draft(), a, ctx, n);
    ProofNodesKept(StoreAdd(), Draft(), a, kept, ctx, n);
    i :| 0 <= i < |kept| && kept[i].Link() == n.Link();
  }

  /** The proof, accepted through its own attestation, is a tree over any pool with both. */
  lemma TreeWithBoth(pool: seq<Delegation>, p: Delegation, e: Delegation, ctx: Context)
    requires ctx == Limits.PrunerContext() && p in pool && e in pool
    requires p.ucan == MailProof() && e.ucan == Attested(MailProof())
    ensures Provable(StoreAdd(), Some(OnMail()), pool, ctx)
  {
    hide Authorize, ProofPool;
    var att := Auth(Match(Source(AttestingCap(MailProof()), e), AttestingCap(MailProof())), [], []);
    AttestationValid(att, OnlyAttestations(pool), p, e, ctx);
    Cast();
    assert NeedsSession(p, ctx) && [att][0] == att;
    assert Accepted(true, p, [att], pool, ctx);
    assert MailProof().Capabilities()[0] == OnMail();
    assert Valid(true, StoreAdd(), Some(OnMail()), Auth(Match(Source(OnMail(), p), OnMail()), [], [att]), pool, ctx);
  }

  lemma AttestationValid(att: Auth, pool: seq<Delegation>, p: Delegation, e: Delegation, ctx: Context)
    requires ctx == Limits.PrunerContext() && e in pool && p.ucan == MailProof() && e.ucan == Attested(MailProof())
    requires att == Auth(Match(Source(AttestingCap(MailProof()), e), AttestingCap(MailProof())), [], [])
    ensures Valid(true, AttestationOf(p.Link(), ctx), None, att, pool, ctx)
  {
    hide Authorize, ProofPool, Validate;
    AuthorityAccepted(e, pool, ctx);
    AttestationReads(p, ctx);
    assert Attested(MailProof()).Capabilities()[0] == AttestingCap(MailProof());
  }

  lemma AuthorityAccepted(e: Delegation, pool: seq<Delegation>, ctx: Context)
    requires ctx == Limits.PrunerContext() && e.ucan.issuer == SERVICE
    ensures Accepted(true, e, [], pool, ctx)
  {
    Cast();
  }

  lemma AttestationReads(p: Delegation, ctx: Context)
    requires ctx == Limits.PrunerContext() && p.ucan == MailProof()
    ensures Answer(AttestationOf(p.Link(), ctx), None, AttestingCap(MailProof())) == Ok(AttestingCap(MailProof()))
  {
  }

  /** The bystander's attestation is returned, and need not be cited: although it stands on
      the first level, is delegated to the draft's issuer, and the draft owns nothing. */
  lemma SurplusOnFirstLevel() returns (a: Auth, kept: seq<Delegation>, i: nat)
    ensures var ctx := Limits.PrunerContext();
      && Claim(StoreAdd(), [Full(Draft())], ctx) == Ok(a) && PruneProofs(StoreAdd(), Draft(), ctx) == Ok(kept)
      && i < |kept| && kept[i].Link() == Cid(Token(Attested(Bystander())))
      && Shown(Attested(Bystander())) in LevelOf(a.proofs) && kept[i].ucan.audience == Draft().ucan.issuer
      && !SelfIssuable(StoreAdd(), Draft(), ctx)
      && Droppable(i, StoreAdd(), Draft(), kept, ctx)
  {
    hide Claim, PruneProofs, Droppable, SelfIssuable, Limits.PrunerContext, LevelOf;
    var ctx := Limits.PrunerContext();
    a := DraftAccepted(ctx);
    kept := Pruned(a, ctx);
    i := LevelKept(a, kept, Shown(Attested(Bystander())), ctx);
    SurplusDrops(a, kept, i, ctx);
  }

  lemma SurplusDrops(a: Auth, kept: seq<Delegation>, i: nat, ctx: Context)
    requires ctx == Limits.PrunerContext() && Claim(StoreAdd(), [Full(Draft())], ctx) == Ok(a)
    requires PruneProofs(StoreAdd(), Draft(), ctx) == Ok(kept)
    requires Shown(MailProof()) in LevelOf(a.proofs) && Shown(Attested(MailProof())) in LevelOf(a.proofs)
    requires i < |kept| && kept[i].Link() == Cid(Token(Attested(Bystander())))
    ensures Droppable(i, StoreAdd(), Draft(), kept, ctx)
  {
    hide Claim, PruneProofs, Droppable, Provable, Limits.PrunerContext, LevelOf, Remaining, AllBlocks, Without;
    var j := LevelKept(a, kept, Shown(MailProof()), ctx);
    var k := LevelKept(a, kept, Shown(Attested(MailProof())), ctx);
    Distinct4();
    Others(kept, i, j);
    Others(kept, i, k);
    var blocks := AllBlocks(kept);
    RemainingHas(i, Draft(), kept, Rebased(kept[j], blocks));
    RemainingHas(i, Draft(), kept, Rebased(kept[k], blocks));
    TreeWithBoth(Remaining(i, Draft(), kept), Rebased(kept[j], blocks), Rebased(kept[k], blocks), ctx);
    assert Draft().ucan.Capabilities()[0] == OnMail();
    assert Answer(StoreAdd(), None, OnMail()) == Ok(OnMail());
    assert ProvesWithout(i, StoreAdd(), Draft(), kept, OnMail(), OnMail(), ctx);
    PrunedKeeps(StoreAdd(), Draft(), a, kept, ctx, Draft().Link());
    Silent(ctx);
    DropsWhenProvable(i, StoreAdd(), Draft(), kept, ctx);
  }

  lemma Others(kept: seq<Delegation>, i: nat, j: nat)
    requires i < |kept| && j < |kept| && kept[i].Link() != kept[j].Link()
    ensures kept[j] in Without(i, kept)
  {
    assert Without(i, kept)[if j < i then j else j - 1] == kept[j];
  }

  lemma Silent(ctx: Context)
    requires ctx == Limits.PrunerContext()
    ensures Unanswering(ctx) && Plain(ctx)
  {
  }
}
