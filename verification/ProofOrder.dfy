/** Which chain the search finds: at every level, the first of the capabilities offered,
    in the order of the proofs, below which something can be proved. */
module ProofOrder {
  import opened Graph
  import opened Capabilities
  import opened Validation
  import opened ProofTrees
  import opened SessionTrees

  // ---- The order of proofs ----

  /** Every capability of a pool, valid or not, in order. */
  function Offered(pool: seq<Delegation>): seq<Source> {
    if pool == [] then []
    else
      var n := |pool| - 1;
      Offered(pool[..n]) + SourcesOf(pool[n], pool[n].ucan.Capabilities())
  }

  /** No tree starts at any of the first `n` capabilities offered. */
  ghost predicate NoneBefore(n: nat, desc: Descriptor, claimed: Option<Capability>, pool: seq<Delegation>, ctx: Context)
    requires n <= |Offered(pool)|
  {
    forall b :: Valid(true, desc, claimed, b, pool, ctx) ==> b.step.source !in Offered(pool)[..n]
  }

  /** `a` starts at the first capability offered at which a tree starts. */
  ghost predicate First(desc: Descriptor, claimed: Option<Capability>, a: Auth, pool: seq<Delegation>, ctx: Context) {
    exists n {:trigger Offered(pool)[n]} ::
      0 <= n < |Offered(pool)| && Offered(pool)[n] == a.step.source && NoneBefore(n, desc, claimed, pool, ctx)
  }

  /** `a` is a valid tree that stops as soon as its value may be issued, and in which
      every proof is the first at its level. */
  ghost predicate Leads(desc: Descriptor, claimed: Option<Capability>, a: Auth, pool: seq<Delegation>, ctx: Context)
    decreases a
  {
    && Valid(true, desc, claimed, a, pool, ctx)
    && (a.proofs == [] <==> ctx.canIssue(a.Capability(), a.Delegation().ucan.issuer))
    && (a.proofs != [] ==>
        var below := ProofPool(a.Delegation(), ctx);
        && First(desc, Some(a.Capability()), a.proofs[0], below, ctx)
        && Leads(desc, Some(a.Capability()), a.proofs[0], below, ctx))
  }

  /** The matches of a chain, from the claim to its root. */
  function Steps(a: Auth): seq<Match>
    decreases a
  {
    [a.step] + if a.proofs == [] then [] else Steps(a.proofs[0])
  }

  /** Whether a claim of `can` is revoked depends on its chain only. */
  ghost predicate RevokedByChain(can: string, ctx: Context) {
    forall a: Auth, b: Auth {:trigger ctx.isRevoked(a), ctx.isRevoked(b)} ::
      Steps(a) == Steps(b) && a.Capability().can == can ==> ctx.isRevoked(a) == ctx.isRevoked(b)
  }

  // ---- Matches are tried in the order offered ----

  /** The matches that come of a list of sources of one pool. */
  function Candidates(desc: Descriptor, claimed: Option<Capability>, offered: seq<Source>, pool: seq<Delegation>,
          ctx: Context): seq<Match> {
    if offered == [] then []
    else
      var n := |offered| - 1;
      var r := Candidates(desc, claimed, offered[..n], pool, ctx);
      var answer := Answer(desc, claimed, offered[n].capability);
      if Validate(offered[n].delegation, pool, ctx).Ok? && answer.Ok? then r + [Match(offered[n], answer.value)] else r
  }

  lemma {:induction false} CandidatesConcat(desc: Descriptor, claimed: Option<Capability>, s: seq<Source>,
          t: seq<Source>, pool: seq<Delegation>, ctx: Context)
    ensures Candidates(desc, claimed, s + t, pool, ctx)
         == Candidates(desc, claimed, s, pool, ctx) + Candidates(desc, claimed, t, pool, ctx)
  {
    hide Validate, Answer;
    if t == [] {
      assert s + t == s;
    } else {
      var n := |t| - 1;
      assert (s + t)[..|s + t| - 1] == s + t[..n];
      CandidatesConcat(desc, claimed, s, t[..n], pool, ctx);
    }
  }

  /** All sources of one delegation stand or fall together. */
  lemma {:induction false} CandidatesOfOne(desc: Descriptor, claimed: Option<Capability>, s: seq<Source>,
          d: Delegation, pool: seq<Delegation>, ctx: Context)
    requires forall x :: x in s ==> x.delegation == d
    ensures Candidates(desc, claimed, s, pool, ctx)
         == if Validate(d, pool, ctx).Ok? then Select(desc, claimed, s).matches else []
  {
    hide Validate, Answer;
    if s != [] {
      var n := |s| - 1;
      assert s[n] in s;
      CandidatesOfOne(desc, claimed, s[..n], d, pool, ctx);
    }
  }

  lemma {:induction false} MatchesInOrder(desc: Descriptor, claimed: Option<Capability>, part: seq<Delegation>,
          checks: seq<Verdict>, pool: seq<Delegation>, ctx: Context)
    requires |part| == |checks| && forall i :: 0 <= i < |part| ==> checks[i] == Validate(part[i], pool, ctx)
    ensures Select(desc, claimed, Sources(part, checks)).matches == Candidates(desc, claimed, Offered(part), pool, ctx)
  {
    hide Validate, Select, Candidates;
    if part == [] {
      NoMatches(desc, claimed, pool, ctx);
    } else {
      var n := |part| - 1;
      var own := SourcesOf(part[n], part[n].ucan.Capabilities());
      MatchesInOrder(desc, claimed, part[..n], checks[..n], pool, ctx);
      CandidatesConcat(desc, claimed, Offered(part[..n]), own, pool, ctx);
      CandidatesOfOne(desc, claimed, own, part[n], pool, ctx);
      SelectConcat(desc, claimed, Sources(part[..n], checks[..n]), own);
    }
  }

  lemma NoMatches(desc: Descriptor, claimed: Option<Capability>, pool: seq<Delegation>, ctx: Context)
    ensures Select(desc, claimed, []).matches == [] && Candidates(desc, claimed, [], pool, ctx) == []
  {
  }

  /** Each candidate comes of one source offered, and those before it of earlier ones. */
  lemma {:induction false} Origin(desc: Descriptor, claimed: Option<Capability>, offered: seq<Source>,
          pool: seq<Delegation>, ctx: Context, m: nat)
      returns (n: nat)
    requires m < |Candidates(desc, claimed, offered, pool, ctx)|
    ensures n < |offered| && offered[n] == Candidates(desc, claimed, offered, pool, ctx)[m].source
    ensures Candidates(desc, claimed, offered[..n], pool, ctx) == Candidates(desc, claimed, offered, pool, ctx)[..m]
  {
    hide Validate, Answer;
    n := |offered| - 1;
    var r := Candidates(desc, claimed, offered[..n], pool, ctx);
    if m < |r| {
      var k := Origin(desc, claimed, offered[..n], pool, ctx, m);
      assert offered[..n][..k] == offered[..k];
      assert Candidates(desc, claimed, offered, pool, ctx)[..m] == r[..m];
      n := k;
    } else {
      assert Candidates(desc, claimed, offered, pool, ctx)[..m] == r;
    }
  }

  lemma {:induction false} CandidateHas(desc: Descriptor, claimed: Option<Capability>, offered: seq<Source>,
          pool: seq<Delegation>, ctx: Context, step: Match)
    requires Validate(step.source.delegation, pool, ctx).Ok?
    requires Answer(desc, claimed, step.source.capability) == Ok(step.value)
    ensures step in Candidates(desc, claimed, offered, pool, ctx) <==> step.source in offered
  {
    hide Validate, Answer;
    if offered != [] {
      var n := |offered| - 1;
      assert offered == offered[..n] + [offered[n]];
      CandidateHas(desc, claimed, offered[..n], pool, ctx, step);
    }
  }

  // ---- What the search returns leads ----

  lemma {:induction false} FirstGrantedIndex(attempts: seq<Attempt>) returns (m: nat)
    requires FirstGranted(attempts).Some?
    ensures m < |attempts| && attempts[m] == Granted(FirstGranted(attempts).value)
    ensures forall j :: 0 <= j < m ==> !attempts[j].Granted?
  {
    if attempts[0].Granted? {
      m := 0;
    } else {
      m := FirstGrantedIndex(attempts[1..]);
      m := m + 1;
    }
  }

  /** Authorizing picks one match, and none before it is granted. */
  lemma AuthorizePicksFirst(desc: Descriptor, above: Match, pool: seq<Delegation>, steps: seq<Match>, ctx: Context)
      returns (m: nat)
    requires Authorize(desc, above, ctx).Ok? && pool == ProofPool(above.source.delegation, ctx)
    requires steps == Select(desc, Some(above.value), Sources(pool, Checks(pool, ctx))).matches
    ensures m < |steps| && Extended(desc, steps[m], pool, ctx) == Granted(Authorize(desc, above, ctx).value)
    ensures forall j :: 0 <= j < m ==> !Extend(desc, steps[j], [], ctx).Granted?
  {
    hide Extend, Select;
    var attempts := ProofAttempts(desc, steps, Sessions(Checks(pool, ctx)), ctx);
    m := FirstGrantedIndex(attempts);
    assert forall j :: 0 <= j < |steps| ==> attempts[j] == Extended(desc, steps[j], pool, ctx);
    forall j | 0 <= j < m
      ensures !Extend(desc, steps[j], [], ctx).Granted?
    {
      var relevant := AttestationsFor(steps[j].source.delegation.Link(), Sessions(Checks(pool, ctx)));
      GrantedAlike(desc, steps[j], relevant, [], ctx);
    }
  }

  ghost function Extended(desc: Descriptor, step: Match, pool: seq<Delegation>, ctx: Context): Attempt {
    Extend(desc, step, AttestationsFor(step.source.delegation.Link(), Sessions(Checks(pool, ctx))), ctx)
  }

  /** A tree over the pool makes its own match succeed, whatever its sessions are. */
  lemma TreeGranted(desc: Descriptor, claimed: Option<Capability>, b: Auth, atts: seq<Auth>, pool: seq<Delegation>,
          ctx: Context)
    requires Orderly(ctx) && Valid(true, desc, claimed, b, pool, ctx)
    ensures Validate(b.step.source.delegation, pool, ctx).Ok?
    ensures Answer(desc, claimed, b.step.source.capability) == Ok(b.step.value)
    ensures Extend(desc, b.step, atts, ctx).Granted?
  {
    hide Valid, Accepted, Authorize, Validate;
    TreeFacts(true, desc, claimed, b, pool, ctx);
    var strict := AcceptStrictly(b.Delegation(), b.attestations, pool, ctx);
    ValidateComplete(b.Delegation(), strict, pool, ctx);
    if b.proofs != [] {
      var below := LooseToStrict(desc, Some(b.Capability()), b.proofs[0], ProofPool(b.Delegation(), ctx), ctx);
      AuthorizeComplete(desc, b.step, below, ctx);
    }
  }

  /** Sessions have no part in whether a match is granted. */
  lemma GrantedAlike(desc: Descriptor, step: Match, atts: seq<Auth>, atts': seq<Auth>, ctx: Context)
    ensures Extend(desc, step, atts, ctx).Granted? == Extend(desc, step, atts', ctx).Granted?
  {
    hide Authorize;
  }

  /** No tree starts before the source of the first match that is granted. */
  lemma GrantedIsFirst(desc: Descriptor, claimed: Option<Capability>, pool: seq<Delegation>, steps: seq<Match>,
          m: nat, a: Auth, ctx: Context)
    requires Orderly(ctx)
    requires steps == Select(desc, claimed, Sources(pool, Checks(pool, ctx))).matches
    requires m < |steps| && a.step == steps[m]
    requires forall j :: 0 <= j < m ==> !Extend(desc, steps[j], [], ctx).Granted?
    ensures First(desc, claimed, a, pool, ctx)
  {
    hide Valid, Extend, Candidates, Select, Validate, Offered;
    var offered := Offered(pool);
    MatchesInOrder(desc, claimed, pool, Checks(pool, ctx), pool, ctx);
    var n := Origin(desc, claimed, offered, pool, ctx, m);
    forall b | Valid(true, desc, claimed, b, pool, ctx)
      ensures b.step.source !in offered[..n]
    {
      TreeGranted(desc, claimed, b, [], pool, ctx);
      CandidateHas(desc, claimed, offered[..n], pool, ctx, b.step);
      assert b.step !in steps[..m];
    }
    assert offered[n] == a.step.source;
  }

  lemma {:induction false} AuthorizeLeads(desc: Descriptor, above: Match, ctx: Context)
    requires Orderly(ctx) && Authorize(desc, above, ctx).Ok?
    ensures var a, pool := Authorize(desc, above, ctx).value, ProofPool(above.source.delegation, ctx);
      First(desc, Some(above.value), a, pool, ctx) && Leads(desc, Some(above.value), a, pool, ctx)
    decreases Rank(above.source.delegation.Link()), 1
  {
    var pool := ProofPool(above.source.delegation, ctx);
    var steps := Select(desc, Some(above.value), Sources(pool, Checks(pool, ctx))).matches;
    var m := AuthorizePicksFirst(desc, above, pool, steps, ctx);
    var a := Authorize(desc, above, ctx).value;
    var atts := AttestationsFor(steps[m].source.delegation.Link(), Sessions(Checks(pool, ctx)));
    ExtendStep(desc, steps[m], atts, ctx);
    GrantedIsFirst(desc, Some(above.value), pool, steps, m, a, ctx);
    AuthorizeSound(desc, above, ctx);
    ValidGrows(false, true, desc, Some(above.value), a, pool, pool, ctx);
    PoolRank(above.source.delegation, ctx);
    StepsSound(desc, Some(above.value), steps[m], pool, ctx);
    ExtendLeads(desc, Some(above.value), steps[m], atts, a, pool, ctx);
  }

  lemma ExtendStep(desc: Descriptor, step: Match, atts: seq<Auth>, ctx: Context)
    requires Extend(desc, step, atts, ctx).Granted?
    ensures Extend(desc, step, atts, ctx).auth.step == step
  {
  }

  lemma {:induction false} ExtendLeads(desc: Descriptor, claimed: Option<Capability>, step: Match, atts: seq<Auth>,
          a: Auth, pool: seq<Delegation>, ctx: Context)
    requires Orderly(ctx) && Extend(desc, step, atts, ctx) == Granted(a) && Valid(true, desc, claimed, a, pool, ctx)
    ensures Leads(desc, claimed, a, pool, ctx)
    decreases Rank(step.source.delegation.Link()), 2
  {
    hide Valid, Extend, Authorize, First;
    ExtendShape(desc, step, atts, a, ctx);
    if !ctx.canIssue(step.value, step.source.delegation.ucan.issuer) {
      AuthorizeLeads(desc, step, ctx);
    }
  }

  lemma ExtendShape(desc: Descriptor, step: Match, atts: seq<Auth>, a: Auth, ctx: Context)
    requires Extend(desc, step, atts, ctx) == Granted(a)
    ensures if ctx.canIssue(step.value, step.source.delegation.ucan.issuer) then a == Auth(step, [], atts)
      else Authorize(desc, step, ctx).Ok? && a == Auth(step, [Authorize(desc, step, ctx).value], atts)
  {
  }

  // ---- One leading chain to a match ----

  /** Two trees that lead from the same match follow the same chain. */
  lemma {:induction false} OneLeadingChain(desc: Descriptor, claimed: Option<Capability>, a: Auth, b: Auth,
          pool: seq<Delegation>, ctx: Context)
    requires a.step == b.step && Leads(desc, claimed, a, pool, ctx) && Leads(desc, claimed, b, pool, ctx)
    ensures Steps(a) == Steps(b)
    decreases a
  {
    hide Leads, First, Valid;
    LeadsShape(desc, claimed, a, pool, ctx);
    LeadsShape(desc, claimed, b, pool, ctx);
    if a.proofs != [] {
      var below := ProofPool(a.Delegation(), ctx);
      LeadsBelow(desc, claimed, a, pool, ctx);
      LeadsBelow(desc, claimed, b, pool, ctx);
      SameFirst(desc, Some(a.Capability()), a.proofs[0], b.proofs[0], below, ctx);
      OneLeadingChain(desc, Some(a.Capability()), a.proofs[0], b.proofs[0], below, ctx);
    }
  }

  lemma LeadsShape(desc: Descriptor, claimed: Option<Capability>, a: Auth, pool: seq<Delegation>, ctx: Context)
    requires Leads(desc, claimed, a, pool, ctx)
    ensures |a.proofs| <= 1
    ensures a.proofs == [] <==> ctx.canIssue(a.Capability(), a.Delegation().ucan.issuer)
  {
  }

  lemma SameFirst(desc: Descriptor, claimed: Option<Capability>, a: Auth, b: Auth, pool: seq<Delegation>, ctx: Context)
    requires First(desc, claimed, a, pool, ctx) && Valid(true, desc, claimed, a, pool, ctx)
    requires First(desc, claimed, b, pool, ctx) && Valid(true, desc, claimed, b, pool, ctx)
    ensures a.step == b.step
  {
    hide Valid, Offered;
    var offered := Offered(pool);
    var n :| 0 <= n < |offered| && offered[n] == a.step.source && NoneBefore(n, desc, claimed, pool, ctx);
    var m :| 0 <= m < |offered| && offered[m] == b.step.source && NoneBefore(m, desc, claimed, pool, ctx);
    NotEarlier(offered, n, m);
    NotEarlier(offered, m, n);
    TreeFacts(true, desc, claimed, a, pool, ctx);
    TreeFacts(true, desc, claimed, b, pool, ctx);
  }

  lemma NotEarlier(s: seq<Source>, n: nat, m: nat)
    requires n < |s| && m <= |s| && s[n] !in s[..m]
    ensures m <= n
  {
    forall i | 0 <= i < m
      ensures s[i] in s[..m]
    {
      assert s[..m][i] == s[i];
    }
  }

  // ---- Revocation ----

  /** With revocation by chain, a claim succeeds exactly when, for some match, the chain
      that takes the first proof at every level is not revoked. Trees further down the
      order are never looked at. */
  lemma FirstChainDecides(desc: Descriptor, proofs: seq<Proof>, ctx: Context)
    requires Orderly(ctx) && RevokedByChain(desc.can, ctx)
    ensures Claim(desc, proofs, ctx).Ok? <==> exists a :: Leads(desc, None, a, Resolved(proofs, ctx), ctx)
  {
    hide Claim, Leads;
    var pool := Resolved(proofs, ctx);
    if Claim(desc, proofs, ctx).Ok? {
      ClaimLeads(desc, proofs, ctx);
    }
    if a :| Leads(desc, None, a, pool, ctx) {
      LeaderClaims(desc, proofs, a, ctx);
    }
  }

  lemma ClaimLeads(desc: Descriptor, proofs: seq<Proof>, ctx: Context)
    requires Orderly(ctx) && Claim(desc, proofs, ctx).Ok?
    ensures Leads(desc, None, Claim(desc, proofs, ctx).value, Resolved(proofs, ctx), ctx)
  {
    var pool := Resolved(proofs, ctx);
    var a := Claim(desc, proofs, ctx).value;
    var step := ClaimPicks(desc, proofs, pool, ctx);
    ClaimSound(desc, proofs, ctx);
    ValidGrows(false, true, desc, None, a, pool, pool, ctx);
    ReviewKeeps(Extend(desc, step, Sessions(Checks(pool, ctx)), ctx), a, ctx);
    ExtendLeads(desc, None, step, Sessions(Checks(pool, ctx)), a, pool, ctx);
  }

  lemma ReviewKeeps(attempt: Attempt, a: Auth, ctx: Context)
    requires Review(attempt, ctx) == Granted(a)
    ensures attempt == Granted(a)
  {
  }

  lemma LeaderClaims(desc: Descriptor, proofs: seq<Proof>, a: Auth, ctx: Context)
    requires Orderly(ctx) && RevokedByChain(desc.can, ctx) && Leads(desc, None, a, Resolved(proofs, ctx), ctx)
    ensures Claim(desc, proofs, ctx).Ok?
  {
    hide Leads, Extend, Validate, Claim, RevokedByChain;
    var pool := Resolved(proofs, ctx);
    var atts := Sessions(Checks(pool, ctx));
    var steps := Select(desc, None, Sources(pool, Checks(pool, ctx))).matches;
    LeaderStands(desc, a, pool, atts, ctx);
    ClaimGrants(desc, a.step, proofs, pool, steps, ctx);
  }

  /** The chain found for the match of a leading tree is the chain of that tree. */
  lemma LeaderStands(desc: Descriptor, a: Auth, pool: seq<Delegation>, atts: seq<Auth>, ctx: Context)
    requires Orderly(ctx) && RevokedByChain(desc.can, ctx) && Leads(desc, None, a, pool, ctx)
    ensures a.step in Select(desc, None, Sources(pool, Checks(pool, ctx))).matches
    ensures Review(Extend(desc, a.step, atts, ctx), ctx).Granted?
  {
    hide Valid, Extend, Validate, Select, First;
    assert Valid(true, desc, None, a, pool, ctx);
    TreeGranted(desc, None, a, atts, pool, ctx);
    MatchFound(true, desc, None, a, pool, ctx);
    TopOfClaim(true, desc, a, pool, ctx);
    SameChain(desc, a, Extend(desc, a.step, atts, ctx).auth, atts, pool, ctx);
  }

  lemma SameChain(desc: Descriptor, a: Auth, b: Auth, atts: seq<Auth>, pool: seq<Delegation>, ctx: Context)
    requires Orderly(ctx) && Leads(desc, None, a, pool, ctx) && Extend(desc, a.step, atts, ctx) == Granted(b)
    ensures Steps(a) == Steps(b)
  {
    hide Valid, Extend, First, Authorize;
    ExtendShape(desc, a.step, atts, b, ctx);
    LeadsShape(desc, None, a, pool, ctx);
    if a.proofs != [] {
      var below := ProofPool(a.Delegation(), ctx);
      AuthorizeLeads(desc, a.step, ctx);
      LeadsBelow(desc, None, a, pool, ctx);
      SameFirst(desc, Some(a.Capability()), a.proofs[0], b.proofs[0], below, ctx);
      OneLeadingChain(desc, Some(a.Capability()), a.proofs[0], b.proofs[0], below, ctx);
    }
  }

  lemma LeadsBelow(desc: Descriptor, claimed: Option<Capability>, a: Auth, pool: seq<Delegation>, ctx: Context)
    requires Leads(desc, claimed, a, pool, ctx) && a.proofs != []
    ensures First(desc, Some(a.Capability()), a.proofs[0], ProofPool(a.Delegation(), ctx), ctx)
    ensures Leads(desc, Some(a.Capability()), a.proofs[0], ProofPool(a.Delegation(), ctx), ctx)
    ensures Valid(true, desc, Some(a.Capability()), a.proofs[0], ProofPool(a.Delegation(), ctx), ctx)
  {
  }

  // ---- Without revocation ----

  /** With nothing revoked, a claim picks one match, and none before it is granted. */
  lemma ClaimPicksFirst(desc: Descriptor, proofs: seq<Proof>, pool: seq<Delegation>, steps: seq<Match>, ctx: Context)
      returns (m: nat)
    requires Unrevoked(ctx) && Claim(desc, proofs, ctx).Ok? && pool == Resolved(proofs, ctx)
    requires steps == Select(desc, None, Sources(pool, Checks(pool, ctx))).matches
    ensures m < |steps|
      && Extend(desc, steps[m], Sessions(Checks(pool, ctx)), ctx) == Granted(Claim(desc, proofs, ctx).value)
    ensures forall j :: 0 <= j < m ==> !Extend(desc, steps[j], [], ctx).Granted?
  {
    hide Extend, Select;
    var sessions := Sessions(Checks(pool, ctx));
    var attempts := ClaimAttempts(desc, steps, sessions, ctx);
    m := FirstGrantedIndex(attempts);
    assert forall j :: 0 <= j < |steps| ==> attempts[j] == Extend(desc, steps[j], sessions, ctx);
    forall j | 0 <= j < m
      ensures !Extend(desc, steps[j], [], ctx).Granted?
    {
      GrantedAlike(desc, steps[j], sessions, [], ctx);
    }
  }

  /** With nothing revoked, what a claim returns is first in proof order at every level,
      the top included. */
  lemma ClaimIsFirst(desc: Descriptor, proofs: seq<Proof>, ctx: Context)
    requires Plain(ctx) && Claim(desc, proofs, ctx).Ok?
    ensures var a, pool := Claim(desc, proofs, ctx).value, Resolved(proofs, ctx);
      First(desc, None, a, pool, ctx) && Leads(desc, None, a, pool, ctx)
  {
    hide Claim, Extend, Select, Leads, First;
    var pool := Resolved(proofs, ctx);
    var steps := Select(desc, None, Sources(pool, Checks(pool, ctx))).matches;
    var m := ClaimPicksFirst(desc, proofs, pool, steps, ctx);
    ExtendStep(desc, steps[m], Sessions(Checks(pool, ctx)), ctx);
    GrantedIsFirst(desc, None, pool, steps, m, Claim(desc, proofs, ctx).value, ctx);
    ClaimLeads(desc, proofs, ctx);
  }

  /** So there is no other chain of that kind. */
  lemma FirstIsClaimed(desc: Descriptor, proofs: seq<Proof>, lead: Auth, ctx: Context)
    requires Plain(ctx) && Claim(desc, proofs, ctx).Ok?
    requires First(desc, None, lead, Resolved(proofs, ctx), ctx) && Leads(desc, None, lead, Resolved(proofs, ctx), ctx)
    ensures Steps(lead) == Steps(Claim(desc, proofs, ctx).value)
  {
    hide Claim, First, Valid;
    var a, pool := Claim(desc, proofs, ctx).value, Resolved(proofs, ctx);
    ClaimIsFirst(desc, proofs, ctx);
    assert Valid(true, desc, None, a, pool, ctx) && Valid(true, desc, None, lead, pool, ctx);
    SameFirst(desc, None, a, lead, pool, ctx);
    OneLeadingChain(desc, None, a, lead, pool, ctx);
  }
}
