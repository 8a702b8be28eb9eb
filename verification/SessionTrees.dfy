/** A session never considers the delegation it is verifying, which is what makes
    the search end. That exclusion loses no proof: whatever can be proved with any
    attestation of the pool can be proved without using a delegation to justify itself. */
module SessionTrees {
  import opened Graph
  import opened Capabilities
  import opened Validation
  import opened ProofTrees

  // ---- Trees keep their validity in larger pools ----

  lemma {:induction false} ValidGrows(l: bool, l': bool, desc: Descriptor, claimed: Option<Capability>, a: Auth,
          pool: seq<Delegation>, pool': seq<Delegation>, ctx: Context)
    requires Valid(l, desc, claimed, a, pool, ctx) && (l ==> l')
    requires forall p :: p in pool ==> p in pool'
    ensures Valid(l', desc, claimed, a, pool', ctx)
    decreases a
  {
    AcceptedGrows(l, l', a.Delegation(), a.attestations, pool, pool', ctx);
    if a.proofs != [] {
      var below := ProofPool(a.Delegation(), ctx);
      ValidGrows(l, l', desc, Some(a.Capability()), a.proofs[0], below, below, ctx);
    }
  }

  lemma {:induction false} AcceptedGrows(l: bool, l': bool, d: Delegation, atts: seq<Auth>, pool: seq<Delegation>,
          pool': seq<Delegation>, ctx: Context)
    requires Accepted(l, d, atts, pool, ctx) && (l ==> l')
    requires forall p :: p in pool ==> p in pool'
    ensures Accepted(l', d, atts, pool', ctx)
    decreases atts
  {
    if !Signed(d, ctx) {
      var i :| 0 <= i < |atts| && Valid(l, AttestationOf(d.Link(), ctx), None, atts[i], Scope(l, d, pool), ctx);
      ValidGrows(l, l', AttestationOf(d.Link(), ctx), None, atts[i], Scope(l, d, pool), Scope(l', d, pool'), ctx);
    }
  }

  // ---- Sizes ----

  function Size(a: Auth): nat
    decreases a
  {
    1 + Sizes(a.proofs) + Sizes(a.attestations)
  }

  function Sizes(s: seq<Auth>): nat
    decreases s
  {
    if s == [] then 0 else Size(s[0]) + Sizes(s[1..])
  }

  lemma {:induction false} SizeWithin(s: seq<Auth>, i: nat)
    requires i < |s|
    ensures Size(s[i]) <= Sizes(s)
  {
    if i > 0 {
      SizeWithin(s[1..], i - 1);
    }
  }

  // ---- Least justifications ----

  ghost predicate SessionTree(d: Delegation, a: Auth, pool: seq<Delegation>, ctx: Context) {
    Valid(true, AttestationOf(d.Link(), ctx), None, a, OnlyAttestations(pool), ctx)
  }

  /** `d` has a session tree of at most `k` nodes, using any attestation of the pool. */
  ghost predicate Justified(k: nat, d: Delegation, pool: seq<Delegation>, ctx: Context) {
    || Signed(d, ctx)
    || (NeedsSession(d, ctx) && exists a :: SessionTree(d, a, pool, ctx) && Size(a) <= k)
  }

  lemma {:induction false} LeastJustification(n: nat, d: Delegation, pool: seq<Delegation>, ctx: Context)
      returns (k: nat)
    requires Justified(n, d, pool, ctx)
    ensures k <= n && Least(k, d, pool, ctx)
  {
    if j: nat :| j < n && Justified(j, d, pool, ctx) {
      k := LeastJustification(j, d, pool, ctx);
    } else {
      k := n;
    }
  }

  ghost predicate Least(k: nat, d: Delegation, pool: seq<Delegation>, ctx: Context) {
    Justified(k, d, pool, ctx) && Needs(k, d, pool, ctx)
  }

  ghost predicate Needs(k: nat, d: Delegation, pool: seq<Delegation>, ctx: Context) {
    forall j: nat :: j < k ==> !Justified(j, d, pool, ctx)
  }

  /** Views of the same token are justified alike. */
  lemma SameToken(k: nat, d: Delegation, e: Delegation, pool: seq<Delegation>, ctx: Context)
    requires d.Link() == e.Link() && Justified(k, d, pool, ctx)
    ensures Justified(k, e, pool, ctx)
  {
    assert d.ucan == e.ucan;
    if !Signed(d, ctx) {
      var a :| SessionTree(d, a, pool, ctx) && Size(a) <= k;
      assert SessionTree(e, a, pool, ctx);
      assert NeedsSession(e, ctx);
    } else {
      SignedByToken(d, e, ctx);
    }
  }

  /** Acceptance by a loose tree is a justification smaller than any tree holding it. */
  lemma AcceptedJustified(d: Delegation, atts: seq<Auth>, pool: seq<Delegation>, base: seq<Delegation>, ctx: Context)
    requires Accepted(true, d, atts, pool, ctx)
    requires forall p :: p in pool ==> p in base
    ensures Justified(Sizes(atts), d, base, ctx)
  {
    if !Signed(d, ctx) {
      var i :| 0 <= i < |atts| && Valid(true, AttestationOf(d.Link(), ctx), None, atts[i], Scope(true, d, pool), ctx);
      ValidGrows(true, true, AttestationOf(d.Link(), ctx), None, atts[i], Scope(true, d, pool),
          OnlyAttestations(base), ctx);
      SizeWithin(atts, i);
      assert SessionTree(d, atts[i], base, ctx);
    }
  }

  // ---- From loose trees to the trees the search looks for ----

  /** `pool` holds every attestation of `base` except those banned, and the banned ones
      all need larger justifications than `k`. */
  ghost predicate Spares(k: nat, base: seq<Delegation>, banned: set<Link>, pool: seq<Delegation>, ctx: Context) {
    && (forall p :: p in base && p.ucan.first.can == "ucan/attest" && p.Link() !in banned ==> p in pool)
    && (forall p :: p in base && p.Link() in banned ==> Needs(k, p, base, ctx))
  }

  /** Banning the delegation just verified keeps the pool sparing, because a smaller
      justification can never be its own. */
  lemma SparesMore(k: nat, k': nat, d: Delegation, base: seq<Delegation>, banned: set<Link>, pool: seq<Delegation>,
          ctx: Context)
    requires Spares(k, base, banned, pool, ctx) && Least(k, d, base, ctx) && k' < k
    ensures Spares(k', base, banned + {d.Link()}, SessionPool(d, pool), ctx)
  {
    forall p, j: nat | p in base && p.Link() in banned + {d.Link()} && j < k'
      ensures !Justified(j, p, base, ctx)
    {
      if p.Link() == d.Link() && Justified(j, p, base, ctx) {
        SameToken(j, p, d, base, ctx);
      }
    }
  }

  /** The root of a least session tree is neither the delegation verified nor banned. */
  lemma RootSpared(k: nat, k': nat, d: Delegation, r: Delegation, base: seq<Delegation>, banned: set<Link>,
          pool: seq<Delegation>, ctx: Context)
    requires Spares(k, base, banned, pool, ctx) && Least(k, d, base, ctx)
    requires r in OnlyAttestations(base) && k' < k && Justified(k', r, base, ctx)
    ensures r in SessionPool(d, pool)
  {
    if r.Link() == d.Link() {
      SameToken(k', r, d, base, ctx);
    }
  }

  lemma {:induction false} StrictSession(k: nat, d: Delegation, base: seq<Delegation>, banned: set<Link>,
          pool: seq<Delegation>, ctx: Context) returns (b: Auth)
    requires Least(k, d, base, ctx) && !Signed(d, ctx)
    requires Spares(k, base, banned, pool, ctx) && RevokedByMatch("ucan/attest", ctx)
    ensures Valid(false, AttestationOf(d.Link(), ctx), None, b, SessionPool(d, pool), ctx)
    decreases k, 0
  {
    var a :| SessionTree(d, a, base, ctx) && Size(a) <= k;
    var r := a.Delegation();
    TreeAccepts(AttestationOf(d.Link(), ctx), None, a, OnlyAttestations(base), ctx);
    AcceptedJustified(r, a.attestations, OnlyAttestations(base), base, ctx);
    var k' := LeastJustification(Sizes(a.attestations), r, base, ctx);
    RootSpared(k, k', d, r, base, banned, pool, ctx);
    var atts := [];
    if !Signed(r, ctx) {
      SparesMore(k, k', d, base, banned, pool, ctx);
      var att := StrictSession(k', r, base, banned + {d.Link()}, SessionPool(d, pool), ctx);
      atts := [att];
      AcceptedBy(r, att, SessionPool(d, pool), ctx);
    }
    b := Rebuild(AttestationOf(d.Link(), ctx), None, a, OnlyAttestations(base), atts, SessionPool(d, pool), ctx);
  }

  lemma TreeAccepts(desc: Descriptor, claimed: Option<Capability>, a: Auth, pool: seq<Delegation>, ctx: Context)
    requires Valid(true, desc, claimed, a, pool, ctx)
    ensures a.Delegation() in pool && Accepted(true, a.Delegation(), a.attestations, pool, ctx)
    ensures ctx.timeBounds(a.Delegation().ucan) == InTime
    ensures Signed(a.Delegation(), ctx) || NeedsSession(a.Delegation(), ctx)
  {
  }

  lemma AcceptedBy(d: Delegation, att: Auth, pool: seq<Delegation>, ctx: Context)
    requires ctx.timeBounds(d.ucan) == InTime && NeedsSession(d, ctx)
    requires Valid(false, AttestationOf(d.Link(), ctx), None, att, SessionPool(d, pool), ctx)
    ensures Accepted(false, d, [att], pool, ctx)
  {
    assert [att][0] == att;
  }

  /** Replaces the justification at the root of `a` by `atts` and makes the chain below strict. */
  lemma {:induction false} Rebuild(desc: Descriptor, claimed: Option<Capability>, a: Auth, pool: seq<Delegation>,
          atts: seq<Auth>, pool': seq<Delegation>, ctx: Context) returns (b: Auth)
    requires Valid(true, desc, claimed, a, pool, ctx)
    requires a.Delegation() in pool' && Accepted(false, a.Delegation(), atts, pool', ctx)
    requires RevokedByMatch("ucan/attest", ctx) && (claimed.None? ==> RevokedByMatch(desc.can, ctx))
    ensures Valid(false, desc, claimed, b, pool', ctx) && b.step == a.step
    decreases Sizes(a.proofs), 1
  {
    hide Accepted, Answer, ProofPool;
    if a.proofs == [] {
      b := Auth(a.step, [], atts);
    } else {
      SizeWithin(a.proofs, 0);
      var below := LooseToStrict(desc, Some(a.Capability()), a.proofs[0], ProofPool(a.Delegation(), ctx), ctx);
      b := Auth(a.step, [below], atts);
    }
    if claimed.None? {
      TopOfClaim(true, desc, a, pool, ctx);
    }
  }

  /** What any attestation of the pool justifies is justified without itself. */
  lemma {:induction false} AcceptStrictly(d: Delegation, atts: seq<Auth>, pool: seq<Delegation>, ctx: Context)
      returns (atts': seq<Auth>)
    requires Accepted(true, d, atts, pool, ctx) && RevokedByMatch("ucan/attest", ctx)
    ensures Accepted(false, d, atts', pool, ctx)
    decreases Sizes(atts), 1
  {
    atts' := [];
    if !Signed(d, ctx) {
      AcceptedJustified(d, atts, pool, pool, ctx);
      var k := LeastJustification(Sizes(atts), d, pool, ctx);
      var att := StrictSession(k, d, pool, {}, pool, ctx);
      atts' := [att];
      AcceptedBy(d, att, pool, ctx);
    }
  }

  lemma {:induction false} LooseToStrict(desc: Descriptor, claimed: Option<Capability>, a: Auth,
          pool: seq<Delegation>, ctx: Context) returns (b: Auth)
    requires Valid(true, desc, claimed, a, pool, ctx)
    requires RevokedByMatch("ucan/attest", ctx) && (claimed.None? ==> RevokedByMatch(desc.can, ctx))
    ensures Valid(false, desc, claimed, b, pool, ctx) && b.step == a.step
    decreases Size(a), 0
  {
    TreeAccepts(desc, claimed, a, pool, ctx);
    var atts := AcceptStrictly(a.Delegation(), a.attestations, pool, ctx);
    b := Rebuild(desc, claimed, a, pool, atts, pool, ctx);
  }
}
