/** A draft on which pruning is not minimal. */
module PruningLimits {
  import opened Graph
  import opened Capabilities
  import opened Validation
  import opened ProofTrees
  import opened ProofOrder
  import opened Export
  import opened Pruning
  import opened PruningTheorems
  import opened Scenario

  const CAROL: Did := "did:key:carol"

  /** A context as the pruner sets it up, in which everything is in time and signed. */
  function PrunerContext(): Context {
    Context(
      Verifier(SERVICE, "service"),
      IsSelfIssued,
      _ => false,
      _ => None,
      did => Some(Verifier(did, did)),
      _ => None,
      (u, key) => Verified,
      u => InTime,
      [])
  }

  /** A context of this kind, whatever it resolves. */
  ghost predicate LikePruner(ctx: Context) {
    ctx == PrunerContext().(resolveProof := ctx.resolveProof)
  }

  /** A token on the owner's store. */
  function Store(issuer: Did, audience: Did, proofs: seq<Link>): Ucan {
    Ucan(issuer, audience, OnOwner(), [], proofs, None, 0, "")
  }

  function ToCarol(): Ucan {
    Store(OWNER, CAROL, [])
  }

  function ToBob(): Ucan {
    Store(CAROL, BOB, [Cid(Token(ToCarol()))])
  }

  function ProofBlocks(): seq<Block> {
    [Token(ToBob()), Token(ToCarol())]
  }

  /** A delegation as the draft's store shows it. */
  function Shown(u: Ucan): Delegation {
    Delegation(u, ProofBlocks(), [])
  }

  /** Bob's draft cites one proof, which cites another. */
  function Draft(): Delegation {
    Shown(Store(BOB, SERVICE, [Cid(Token(ToBob()))]))
  }

  function Step(u: Ucan): Match {
    Match(Source(OnOwner(), Shown(u)), OnOwner())
  }

  lemma Keys()
    ensures IsKey(OWNER) && IsKey(CAROL) && IsKey(BOB)
  {
    assert OWNER[..8] == "did:key:" && CAROL[..8] == "did:key:" && BOB[..8] == "did:key:";
  }

  lemma KeyAccepted(d: Delegation, pool: seq<Delegation>, ctx: Context)
    requires LikePruner(ctx) && IsKey(d.ucan.issuer)
    ensures Validate(d, pool, ctx) == Ok(None) && Signed(d, ctx) && Accepted(false, d, [], pool, ctx)
  {
  }

  lemma OnePool(u: Ucan, p: Ucan, ctx: Context)
    requires LikePruner(ctx) && u.proofs == [Cid(Token(p))] && p.audience == u.issuer && Token(p) in ProofBlocks()
    ensures ProofPool(Shown(u), ctx) == [Shown(p)]
  {
    var d := Shown(u);
    assert d.Blocks() == ProofBlocks();
    assert ProofsOfView(d) == [Full(Shown(p))] == AsProofs([Shown(p)]);
    ResolvedAsProofs([Shown(p)], ctx);
    assert [Shown(p)][..0] == [] && Aligned(d, []) == [];
  }

  // ---- The chain ----

  /** In a pool of one key's delegation there is one match, and no session. */
  lemma OneMatch(claimed: Option<Capability>, u: Ucan, step: Match, ctx: Context)
    requires LikePruner(ctx) && IsKey(u.issuer) && u.first == OnOwner() && u.more == []
    requires claimed == None || claimed == Some(OnOwner())
    ensures Sessions(Checks([Shown(u)], ctx)) == []
    ensures step in Select(StoreAdd(), claimed, Sources([Shown(u)], Checks([Shown(u)], ctx))).matches
      ==> step == Step(u)
  {
    hide Validate, Select, Sources, Answer, Signed;
    var pool := [Shown(u)];
    var checks := Checks(pool, ctx);
    KeyAccepted(Shown(u), pool, ctx);
    assert checks[..0] == [] && Sessions([]) == [];
    if step in Select(StoreAdd(), claimed, Sources(pool, checks)).matches {
      var i := MatchFrom(StoreAdd(), claimed, step, pool, checks);
      assert Shown(u).ucan.Capabilities() == [OnOwner()];
      AnswersItself(claimed, step.value);
    }
  }

  /** A node over a pool of one delegation, with what is below it. */
  lemma NodeValid(claimed: Option<Capability>, u: Ucan, proofs: seq<Auth>, ctx: Context)
    requires LikePruner(ctx) && IsKey(u.issuer) && u.first == OnOwner()
    requires claimed == None || claimed == Some(OnOwner())
    requires proofs == [] ==> u.issuer == OWNER
    requires proofs != [] ==>
      |proofs| == 1 && Valid(false, StoreAdd(), Some(OnOwner()), proofs[0], ProofPool(Shown(u), ctx), ctx)
    ensures Valid(false, StoreAdd(), claimed, Auth(Step(u), proofs, []), [Shown(u)], ctx)
  {
    hide Accepted, Validate, ProofPool;
    KeyAccepted(Shown(u), [Shown(u)], ctx);
    assert u.Capabilities()[0] == OnOwner() && Shown(u) in [Shown(u)];
  }

  lemma LeafValid(ctx: Context)
    requires LikePruner(ctx)
    ensures Valid(false, StoreAdd(), Some(OnOwner()), Auth(Step(ToCarol()), [], []), [Shown(ToCarol())], ctx)
  {
    hide Valid;
    Keys();
    NodeValid(Some(OnOwner()), ToCarol(), [], ctx);
  }

  lemma MiddleValid(ctx: Context)
    requires LikePruner(ctx)
    ensures Valid(false, StoreAdd(), Some(OnOwner()),
      Auth(Step(ToBob()), [Auth(Step(ToCarol()), [], [])], []), [Shown(ToBob())], ctx)
  {
    hide Valid, ProofPool;
    Keys();
    LeafValid(ctx);
    OnePool(ToBob(), ToCarol(), ctx);
    NodeValid(Some(OnOwner()), ToBob(), [Auth(Step(ToCarol()), [], [])], ctx);
  }

  function Chosen(): Auth {
    Auth(Step(Draft().ucan), [Auth(Step(ToBob()), [Auth(Step(ToCarol()), [], [])], [])], [])
  }

  lemma ChosenValid(ctx: Context)
    requires LikePruner(ctx)
    ensures Valid(false, StoreAdd(), None, Chosen(), [Draft()], ctx)
  {
    hide Valid, ProofPool;
    Keys();
    MiddleValid(ctx);
    OnePool(Draft().ucan, ToBob(), ctx);
    NodeValid(None, Draft().ucan, Chosen().proofs, ctx);
  }

  lemma AnswersItself(claimed: Option<Capability>, value: Capability)
    requires claimed == None || claimed == Some(OnOwner())
    requires Answer(StoreAdd(), claimed, OnOwner()) == Ok(value)
    ensures value == OnOwner()
  {
  }

  lemma DraftAccepted(ctx: Context) returns (a: Auth)
    requires LikePruner(ctx)
    ensures Plain(ctx) && Claim(StoreAdd(), [Full(Draft())], ctx) == Ok(a)
    ensures a.step == Step(Draft().ucan) && a.attestations == []
    ensures Authorize(StoreAdd(), Step(Draft().ucan), ctx).Ok?
      && a.proofs == [Authorize(StoreAdd(), Step(Draft().ucan), ctx).value]
  {
    hide Valid, Claim, Authorize, Validate, Select, Sources, Sessions;
    var pool := [Draft()];
    Keys();
    ChosenValid(ctx);
    ResolvedAsProofs(pool, ctx);
    assert AsProofs(pool) == [Full(Draft())];
    ClaimComplete(StoreAdd(), Chosen(), [Full(Draft())], ctx);
    a := Claim(StoreAdd(), [Full(Draft())], ctx).value;
    var step := ClaimPicks(StoreAdd(), [Full(Draft())], pool, ctx);
    OneMatch(None, Draft().ucan, step, ctx);
    ReviewKeeps(Extend(StoreAdd(), step, Sessions(Checks(pool, ctx)), ctx), a, ctx);
    ExtendShape(StoreAdd(), step, [], a, ctx);
  }

  /** Authorizing over a pool of one delegation picks it. */
  lemma Picked(u: Ucan, p: Ucan, ctx: Context) returns (atts: seq<Auth>)
    requires LikePruner(ctx) && IsKey(p.issuer) && p.first == OnOwner() && p.more == []
    requires ProofPool(Shown(u), ctx) == [Shown(p)] && Authorize(StoreAdd(), Step(u), ctx).Ok?
    ensures atts == [] && Extend(StoreAdd(), Step(p), atts, ctx) == Granted(Authorize(StoreAdd(), Step(u), ctx).value)
  {
    hide Authorize, Extend, Select, Sources, Sessions, Validate, ProofPool;
    var pool := [Shown(p)];
    var step := AuthorizePicks(StoreAdd(), Step(u), pool, ctx);
    OneMatch(Some(OnOwner()), p, step, ctx);
    atts := AttestationsFor(step.source.delegation.Link(), Sessions(Checks(pool, ctx)));
    assert atts == [];
  }

  /** The claim on the draft follows its one chain, without sessions. */
  lemma DraftAuthorized(ctx: Context)
    requires LikePruner(ctx)
    ensures Plain(ctx) && Claim(StoreAdd(), [Full(Draft())], ctx) == Ok(Chosen())
  {
    hide Authorize, Extend, Claim, ProofPool;
    Keys();
    assert OWNER[8] == 'o' && CAROL[8] == 'c' && BOB[8] == 'b';
    var a := DraftAccepted(ctx);
    OnePool(Draft().ucan, ToBob(), ctx);
    var atts := Picked(Draft().ucan, ToBob(), ctx);
    var b := Authorize(StoreAdd(), Step(Draft().ucan), ctx).value;
    ExtendShape(StoreAdd(), Step(ToBob()), atts, b, ctx);
    OnePool(ToBob(), ToCarol(), ctx);
    atts := Picked(ToBob(), ToCarol(), ctx);
    ExtendShape(StoreAdd(), Step(ToCarol()), atts, b.proofs[0], ctx);
    assert b.proofs[0] == Auth(Step(ToCarol()), [], []);
    assert b == Auth(Step(ToBob()), [b.proofs[0]], []);
    assert a == Auth(Step(Draft().ucan), [b], []);
  }

  // ---- What pruning returns ----

  lemma {:induction false} ReexportOk(ds: seq<Delegation>, root: Link)
    requires forall d :: d in ds ==> Exported(d, []).Some?
    ensures Reexport(ds, root).Ok?
  {
    if ds != [] {
      ReexportOk(ds[..|ds| - 1], root);
    }
  }

  lemma {:induction false} CollectFrom(seen: seq<Delegation>, ds: seq<Delegation>, d: Delegation)
    requires d in Collect(seen, ds)
    ensures d in seen || d in ds
  {
    if ds != [] {
      var n := |ds| - 1;
      assert ds == ds[..n] + [ds[n]];
      if d in Collect(seen, ds[..n]) {
        CollectFrom(seen, ds[..n], d);
      }
    }
  }

  lemma ChosenNodes()
    ensures Nodes(Chosen()) == [Draft(), Shown(ToBob()), Shown(ToCarol())]
  {
    var leaf := Auth(Step(ToCarol()), [], []);
    var middle := Auth(Step(ToBob()), [leaf], []);
    assert NodesOf([]) == [];
    assert Nodes(leaf) == [Shown(ToCarol())];
    assert NodesOf([leaf]) == Nodes(leaf);
    assert Nodes(middle) == [Shown(ToBob()), Shown(ToCarol())];
    assert NodesOf([middle]) == Nodes(middle);
  }

  lemma ShownExports(u: Ucan)
    requires u == Draft().ucan || u == ToBob() || u == ToCarol()
    ensures Exported(Shown(u), []).Some?
  {
    assert ExportProofs([], ProofBlocks(), []) == Some([]);
    Exports(ToCarol());
    Exports(ToBob());
    Exports(Draft().ucan);
  }

  lemma Exports(u: Ucan)
    requires u.proofs != [] ==> |u.proofs| == 1 && ExportLink(u.proofs[0], ProofBlocks(), []).Some?
    ensures ExportLink(Cid(Token(u)), ProofBlocks(), []).Some? && Exported(Shown(u), []).Some?
  {
    if u.proofs != [] {
      assert u.proofs[..0] == [];
      assert ExportProofs([], ProofBlocks(), []) == Some([]);
    }
    Unattached(Shown(u), []);
  }

  /** The draft cites one proof and is accepted with it; pruning returns two, the second
      of which need not be cited. */
  lemma PruningIsNotMinimal() returns (kept: seq<Delegation>, i: nat)
    ensures Draft().ucan.proofs == [Cid(Token(ToBob()))] && Claim(StoreAdd(), [Full(Draft())], PrunerContext()).Ok?
    ensures PruneProofs(StoreAdd(), Draft(), PrunerContext()) == Ok(kept)
    ensures Holds(kept, Cid(Token(ToBob()))) && i < |kept| && kept[i].Link() == Cid(Token(ToCarol()))
    ensures Droppable(i, StoreAdd(), Draft(), kept, PrunerContext())
  {
    hide Claim, Valid, Droppable;
    var ctx := PrunerContext();
    DraftAuthorized(ctx);
    ChosenNodes();
    var all := Collect([], Nodes(Chosen()));
    forall d | d in all
      ensures Exported(d, []).Some?
    {
      CollectFrom([], Nodes(Chosen()), d);
      ShownExports(d.ucan);
    }
    ReexportOk(all, Draft().Link());
    kept := PruneProofs(StoreAdd(), Draft(), ctx).value;
    var one, two := Cid(Token(ToBob())), Cid(Token(ToCarol()));
    PrunedKeeps(StoreAdd(), Draft(), Chosen(), kept, ctx, one);
    PrunedKeeps(StoreAdd(), Draft(), Chosen(), kept, ctx, two);
    assert Nodes(Chosen())[1].Link() == one && Nodes(Chosen())[2].Link() == two;
    i :| 0 <= i < |kept| && kept[i].Link() == two;
    NotOnFirstLevel(two);
    DeeperIsDroppable(StoreAdd(), Draft(), Chosen(), kept, i, ctx);
  }

  lemma NotOnFirstLevel(two: Link)
    requires two == Cid(Token(ToCarol()))
    ensures !Holds(LevelOf(Chosen().proofs), two)
  {
    var middle := Chosen().proofs[0];
    assert LevelOf([]) == [];
    assert Level(middle) == [Shown(ToBob())];
    assert LevelOf([middle]) == Level(middle);
    assert ToBob().issuer == CAROL && ToCarol().issuer == OWNER && CAROL[8] != OWNER[8];
  }
}
