/** What an authorization records: its chain, and the sessions its delegations were
    accepted through. Lists keep the order of what they are made from. */
module Records {
  import opened Graph
  import opened Capabilities
  import opened Validation
  import opened ProofTrees
  import opened ProofOrder

  /** What a claim returns records every session of its pool. */
  lemma ClaimRecords(desc: Descriptor, proofs: seq<Proof>, ctx: Context)
    requires Claim(desc, proofs, ctx).Ok?
    ensures var a := Claim(desc, proofs, ctx).value;
      && a.attestations == Sessions(Checks(Resolved(proofs, ctx), ctx))
      && if ctx.canIssue(a.Capability(), a.Delegation().ucan.issuer) then a.proofs == []
         else Authorize(desc, a.step, ctx).Ok? && a.proofs == [Authorize(desc, a.step, ctx).value]
  {
    hide Claim, Extend, Select, Sessions, Authorize;
    var pool := Resolved(proofs, ctx);
    var step := ClaimPicks(desc, proofs, pool, ctx);
    ReviewKeeps(Extend(desc, step, Sessions(Checks(pool, ctx)), ctx), Claim(desc, proofs, ctx).value, ctx);
    ExtendShape(desc, step, Sessions(Checks(pool, ctx)), Claim(desc, proofs, ctx).value, ctx);
  }

  /** `t` is a session through which some delegation of the pool was accepted. */
  ghost predicate SessionOf(t: Auth, pool: seq<Delegation>, ctx: Context) {
    exists x :: x in pool && Validate(x, pool, ctx) == Ok(Some(t))
  }

  lemma SessionsAre(pool: seq<Delegation>, t: Auth, ctx: Context)
    ensures t in Sessions(Checks(pool, ctx)) <==> SessionOf(t, pool, ctx)
  {
    hide Validate, Sessions;
    var checks := Checks(pool, ctx);
    SessionsHas(checks, t);
    if SessionOf(t, pool, ctx) {
      var x :| x in pool && Validate(x, pool, ctx) == Ok(Some(t));
      var i :| 0 <= i < |pool| && pool[i] == x;
      assert checks[i] == Ok(Some(t));
    }
  }

  /** Further down, a proof records exactly the sessions of its pool that attest it, and
      what authorizes it in turn. */
  lemma ProofRecords(desc: Descriptor, above: Match, t: Auth, ctx: Context)
    requires Authorize(desc, above, ctx).Ok?
    ensures var a, pool := Authorize(desc, above, ctx).value, ProofPool(above.source.delegation, ctx);
      && (t in a.attestations <==>
            SessionOf(t, pool, ctx) && t.Capability().nb == Attestation(a.Delegation().Link()))
      && if ctx.canIssue(a.Capability(), a.Delegation().ucan.issuer) then a.proofs == []
         else Authorize(desc, a.step, ctx).Ok? && a.proofs == [Authorize(desc, a.step, ctx).value]
  {
    hide Authorize, Extend, Select, Sessions, Validate;
    var pool := ProofPool(above.source.delegation, ctx);
    var step := AuthorizePicks(desc, above, pool, ctx);
    var atts := AttestationsFor(step.source.delegation.Link(), Sessions(Checks(pool, ctx)));
    ExtendShape(desc, step, atts, Authorize(desc, above, ctx).value, ctx);
    SessionsAre(pool, t, ctx);
  }

  // ---- Order ----

  lemma SourcesSnoc(pool: seq<Delegation>, checks: seq<Verdict>) returns (last: seq<Source>)
    requires |pool| == |checks| && pool != []
    ensures var n := |pool| - 1;
      && last == (if checks[n].Ok? then SourcesOf(pool[n], pool[n].ucan.Capabilities()) else [])
      && Sources(pool, checks) == Sources(pool[..n], checks[..n]) + last
  {
    var n := |pool| - 1;
    last := if checks[n].Ok? then SourcesOf(pool[n], pool[n].ucan.Capabilities()) else [];
  }

  lemma NoSources()
    ensures Sources([], []) == []
  {
  }

  /** Sources are gathered proof by proof, in the order of the pool. */
  lemma {:induction false} SourcesInOrder(p: seq<Delegation>, q: seq<Delegation>, a: seq<Verdict>, b: seq<Verdict>)
    requires |p| == |a| && |q| == |b|
    ensures Sources(p + q, a + b) == Sources(p, a) + Sources(q, b)
  {
    hide Sources;
    if b == [] {
      assert a + b == a && p + q == p;
      NoSources();
    } else {
      assert (a + b)[..|a + b| - 1] == a + b[..|b| - 1];
      assert (p + q)[..|p + q| - 1] == p + q[..|q| - 1];
      SourcesInOrder(p, q[..|q| - 1], a, b[..|b| - 1]);
      var last := SourcesSnoc(q, b);
      var same := SourcesSnoc(p + q, a + b);
    }
  }

  /** So are refusals, sessions and faults. */
  lemma {:induction false} RefusalsInOrder(p: seq<Delegation>, q: seq<Delegation>, a: seq<Verdict>, b: seq<Verdict>)
    requires |p| == |a| && |q| == |b|
    ensures Refusals(p + q, a + b) == Refusals(p, a) + Refusals(q, b)
  {
    if b == [] {
      assert a + b == a && p + q == p;
    } else {
      assert (a + b)[..|a + b| - 1] == a + b[..|b| - 1];
      assert (p + q)[..|p + q| - 1] == p + q[..|q| - 1];
      RefusalsInOrder(p, q[..|q| - 1], a, b[..|b| - 1]);
    }
  }

  lemma {:induction false} OutcomesInOrder(a: seq<Verdict>, b: seq<Verdict>)
    ensures Sessions(a + b) == Sessions(a) + Sessions(b) && Faults(a + b) == Faults(a) + Faults(b)
  {
    if b == [] {
      assert a + b == a;
    } else {
      assert (a + b)[..|a + b| - 1] == a + b[..|b| - 1];
      OutcomesInOrder(a, b[..|b| - 1]);
    }
  }

  /** And proofs are resolved, sorted by their audience, and attempted in theirs. */
  lemma {:induction false} ResolvedInOrder(a: seq<Proof>, b: seq<Proof>, ctx: Context)
    ensures Resolved(a + b, ctx) == Resolved(a, ctx) + Resolved(b, ctx)
    ensures Unresolvable(a + b, ctx) == Unresolvable(a, ctx) + Unresolvable(b, ctx)
  {
    if b == [] {
      assert a + b == a;
    } else {
      var n := |b| - 1;
      assert (a + b)[..|a + b| - 1] == a + b[..n];
      ResolvedInOrder(a, b[..n], ctx);
    }
  }

  lemma {:induction false} AlignedInOrder(d: Delegation, a: seq<Delegation>, b: seq<Delegation>)
    ensures Aligned(d, a + b) == Aligned(d, a) + Aligned(d, b)
    ensures MisalignedIn(d, a + b) == MisalignedIn(d, a) + MisalignedIn(d, b)
  {
    if b == [] {
      assert a + b == a;
    } else {
      var n := |b| - 1;
      assert (a + b)[..|a + b| - 1] == a + b[..n];
      AlignedInOrder(d, a, b[..n]);
    }
  }

  lemma {:induction false} AttemptsInOrder(a: seq<Attempt>, b: seq<Attempt>)
    ensures Withdrawals(a + b) == Withdrawals(a) + Withdrawals(b) && Denials(a + b) == Denials(a) + Denials(b)
  {
    if b == [] {
      assert a + b == a;
    } else {
      var n := |b| - 1;
      assert (a + b)[..|a + b| - 1] == a + b[..n];
      AttemptsInOrder(a, b[..n]);
    }
  }
}
