/** Exporting a delegation's own blocks (core/delegation/delegation.go). */
module Export {
  import opened Graph
  import opened Blockstore

  /** A proof is exported when it is not omitted and its block is at hand. */
  predicate Included(p: Link, blocks: seq<Block>, omit: seq<Link>) {
    p !in omit && p.content in blocks
  }

  /** The blocks below a token and then the token itself; `None` when a block to export
      does not decode to a token. A block is listed once for every way it is reached. */
  function ExportLink(l: Link, blocks: seq<Block>, omit: seq<Link>): Option<seq<Block>>
    decreases l
  {
    if !l.content.Token? then None
    else match ExportProofs(l.content.ucan.proofs, blocks, omit)
      case None => None
      case Some(below) => Some(below + [l.content])
  }

  function ExportProofs(proofs: seq<Link>, blocks: seq<Block>, omit: seq<Link>): Option<seq<Block>>
    decreases proofs
  {
    if proofs == [] then Some([])
    else
      var n := |proofs| - 1;
      match ExportProofs(proofs[..n], blocks, omit)
      case None => None
      case Some(s) =>
        if !Included(proofs[n], blocks, omit) then Some(s)
        else match ExportLink(proofs[n], blocks, omit)
          case None => None
          case Some(t) => Some(s + t)
  }

  /** Attached blocks come after the proofs and before the root. */
  function Exported(d: Delegation, omit: seq<Link>): Option<seq<Block>> {
    match ExportProofs(d.ucan.proofs, d.blocks, omit)
    case None => None
    case Some(below) => Some(below + d.attached + [Token(d.ucan)])
  }

  lemma Unattached(d: Delegation, omit: seq<Link>)
    requires d.attached == []
    ensures Exported(d, omit) == ExportLink(d.Link(), d.blocks, omit)
  {
    if ExportProofs(d.ucan.proofs, d.blocks, omit).Some? {
      var below := ExportProofs(d.ucan.proofs, d.blocks, omit).value;
      assert below + [] == below;
    }
  }

  // ---- Coverage ----

  function Open(blocks: seq<Block>, omit: seq<Link>): (r: set<Link>)
    ensures forall p :: p in r <==> Included(p, blocks, omit)
  {
    set b | b in blocks && Cid(b) !in omit :: Cid(b)
  }

  /** An export lists exactly the blocks reached from its root through included links. */
  lemma {:induction false} ExportCovers(l: Link, blocks: seq<Block>, omit: seq<Link>, b: Block)
    requires ExportLink(l, blocks, omit).Some?
    ensures b in ExportLink(l, blocks, omit).value <==> Reaches(l, Cid(b), Open(blocks, omit))
    decreases l
  {
    var open := Open(blocks, omit);
    ProofsCover(l.content.ucan.proofs, blocks, omit, b);
    if b == l.content {
      ReachesSelf(l, open);
    } else if Reaches(l, Cid(b), open) {
      var next := ReachesSplit(l, Cid(b), open);
      assert next in l.content.ucan.proofs && Included(next, blocks, omit);
    }
    if p :| p in l.content.ucan.proofs && Included(p, blocks, omit) && Reaches(p, Cid(b), open) {
      ReachesStep(l, p, Cid(b), open);
    }
  }

  lemma {:induction false} ProofsCover(proofs: seq<Link>, blocks: seq<Block>, omit: seq<Link>, b: Block)
    requires ExportProofs(proofs, blocks, omit).Some?
    ensures b in ExportProofs(proofs, blocks, omit).value
       <==> exists p :: p in proofs && Included(p, blocks, omit) && Reaches(p, Cid(b), Open(blocks, omit))
    decreases proofs
  {
    if proofs != [] {
      var n := |proofs| - 1;
      assert proofs == proofs[..n] + [proofs[n]];
      ProofsCover(proofs[..n], blocks, omit, b);
      if Included(proofs[n], blocks, omit) {
        ExportCovers(proofs[n], blocks, omit, b);
      }
    }
  }

  /** There is an export exactly when every block it would list decodes to a token. */
  lemma {:induction false} ExportIff(l: Link, blocks: seq<Block>, omit: seq<Link>)
    ensures ExportLink(l, blocks, omit).Some?
       <==> forall m :: Reaches(l, m, Open(blocks, omit)) ==> m.content.Token?
    decreases l
  {
    var open := Open(blocks, omit);
    ReachesSelf(l, open);
    if l.content.Token? {
      ProofsExportIff(l.content.ucan.proofs, blocks, omit);
      forall m | Reaches(l, m, open) && m != l
        ensures exists p :: p in l.content.ucan.proofs && Included(p, blocks, omit) && Reaches(p, m, open)
      {
        var next := ReachesSplit(l, m, open);
      }
      forall p, m | p in l.content.ucan.proofs && Included(p, blocks, omit) && Reaches(p, m, open)
        ensures Reaches(l, m, open)
      {
        ReachesStep(l, p, m, open);
      }
    }
  }

  lemma {:induction false} ProofsExportIff(proofs: seq<Link>, blocks: seq<Block>, omit: seq<Link>)
    ensures ExportProofs(proofs, blocks, omit).Some? <==> forall p, m ::
      p in proofs && Included(p, blocks, omit) && Reaches(p, m, Open(blocks, omit)) ==> m.content.Token?
    decreases proofs
  {
    if proofs != [] {
      var n := |proofs| - 1;
      assert proofs == proofs[..n] + [proofs[n]];
      ProofsExportIff(proofs[..n], blocks, omit);
      if Included(proofs[n], blocks, omit) {
        ExportIff(proofs[n], blocks, omit);
      }
    }
  }

  // ---- With attachments ----

  /** Attachments come right before the root; the rest is the export without them. */
  lemma ExportedAround(d: Delegation, omit: seq<Link>)
    ensures Exported(d, omit).Some? <==> ExportLink(d.Link(), d.blocks, omit).Some?
    ensures Exported(d, omit).Some? ==>
      var s := ExportLink(d.Link(), d.blocks, omit).value; var n := |s| - 1;
      n >= 0 && s[n] == Token(d.ucan) && Exported(d, omit).value == s[..n] + d.attached + s[n..]
  {
    if Exported(d, omit).Some? {
      var below := ExportProofs(d.ucan.proofs, d.blocks, omit).value;
      assert (below + [Token(d.ucan)])[..|below|] == below;
    }
  }

  /** A delegation exports its attachments and exactly the blocks reached from it through
      its included proofs. */
  lemma ExportedCovers(d: Delegation, omit: seq<Link>, b: Block)
    requires Exported(d, omit).Some?
    ensures b in Exported(d, omit).value <==> b in d.attached || Reaches(d.Link(), Cid(b), Open(d.blocks, omit))
  {
    ExportedAround(d, omit);
    var s := ExportLink(d.Link(), d.blocks, omit).value;
    ExportCovers(d.Link(), d.blocks, omit, b);
    assert s == s[..|s| - 1] + s[|s| - 1..];
  }

  // ---- Order ----

  /** Every block comes after the included proofs it cites. */
  ghost predicate BottomUp(s: seq<Block>, blocks: seq<Block>, omit: seq<Link>) {
    forall i, p :: 0 <= i < |s| && p in ProofsOf(Cid(s[i])) && Included(p, blocks, omit) ==> p.content in s[..i]
  }

  lemma BottomUpConcat(s: seq<Block>, t: seq<Block>, blocks: seq<Block>, omit: seq<Link>)
    requires BottomUp(s, blocks, omit) && BottomUp(t, blocks, omit)
    ensures BottomUp(s + t, blocks, omit)
  {
    forall i, p | 0 <= i < |s + t| && p in ProofsOf(Cid((s + t)[i])) && Included(p, blocks, omit)
      ensures p.content in (s + t)[..i]
    {
      if i < |s| {
        assert (s + t)[..i] == s[..i];
      } else {
        assert (s + t)[..i] == s + t[..i - |s|];
      }
    }
  }

  /** Proofs come first and the root comes last. */
  lemma {:induction false} ExportBottomUp(l: Link, blocks: seq<Block>, omit: seq<Link>)
    requires ExportLink(l, blocks, omit).Some?
    ensures var s := ExportLink(l, blocks, omit).value;
      BottomUp(s, blocks, omit) && s != [] && s[|s| - 1] == l.content
    decreases l
  {
    ProofsBottomUp(l.content.ucan.proofs, blocks, omit);
    var below := ExportProofs(l.content.ucan.proofs, blocks, omit).value;
    var s := below + [l.content];
    forall i, p | 0 <= i < |s| && p in ProofsOf(Cid(s[i])) && Included(p, blocks, omit)
      ensures p.content in s[..i]
    {
      if i < |below| {
        assert s[..i] == below[..i];
      } else {
        assert s[..i] == below;
      }
    }
  }

  lemma {:induction false} ProofsBottomUp(proofs: seq<Link>, blocks: seq<Block>, omit: seq<Link>)
    requires ExportProofs(proofs, blocks, omit).Some?
    ensures BottomUp(ExportProofs(proofs, blocks, omit).value, blocks, omit)
    ensures forall p ::
      p in proofs && Included(p, blocks, omit) ==> p.content in ExportProofs(proofs, blocks, omit).value
    decreases proofs
  {
    if proofs != [] {
      var n := |proofs| - 1;
      assert proofs == proofs[..n] + [proofs[n]];
      ProofsBottomUp(proofs[..n], blocks, omit);
      if Included(proofs[n], blocks, omit) {
        ExportBottomUp(proofs[n], blocks, omit);
        BottomUpConcat(ExportProofs(proofs[..n], blocks, omit).value,
          ExportLink(proofs[n], blocks, omit).value, blocks, omit);
      }
    }
  }

  // ---- Exporting again ----

  /** Two stores agree below the blocks of `s`. */
  ghost predicate Agree(s: seq<Block>, blocks: seq<Block>, omit: seq<Link>, blocks': seq<Block>) {
    forall b, p :: b in s && p in ProofsOf(Cid(b)) ==> (Included(p, blocks, omit) <==> Included(p, blocks', []))
  }

  lemma {:induction false} ExportAgain(l: Link, blocks: seq<Block>, omit: seq<Link>, blocks': seq<Block>)
    requires ExportLink(l, blocks, omit).Some?
    requires Agree(ExportLink(l, blocks, omit).value, blocks, omit, blocks')
    ensures ExportLink(l, blocks', []) == ExportLink(l, blocks, omit)
    decreases l
  {
    var s := ExportLink(l, blocks, omit).value;
    assert l.content in s;
    ProofsAgain(l.content.ucan.proofs, s, blocks, omit, blocks');
  }

  lemma {:induction false} ProofsAgain(proofs: seq<Link>, s: seq<Block>, blocks: seq<Block>, omit: seq<Link>,
          blocks': seq<Block>)
    requires ExportProofs(proofs, blocks, omit).Some?
    requires Agree(s, blocks, omit, blocks')
    requires forall b :: b in ExportProofs(proofs, blocks, omit).value ==> b in s
    requires forall p :: p in proofs ==> (Included(p, blocks, omit) <==> Included(p, blocks', []))
    ensures ExportProofs(proofs, blocks', []) == ExportProofs(proofs, blocks, omit)
    decreases proofs
  {
    if proofs != [] {
      var n := |proofs| - 1;
      assert proofs == proofs[..n] + [proofs[n]];
      ProofsAgain(proofs[..n], s, blocks, omit, blocks');
      if Included(proofs[n], blocks, omit) {
        ExportAgain(proofs[n], blocks, omit, blocks');
      }
    }
  }

  /** Blocks in an export rank no higher than its root, and only the root ranks as high. */
  lemma {:induction false} ExportRanks(l: Link, blocks: seq<Block>, omit: seq<Link>, b: Block)
    requires ExportLink(l, blocks, omit).Some? && b in ExportLink(l, blocks, omit).value
    ensures Rank(Cid(b)) <= Rank(l)
    ensures b != l.content ==> b in blocks && Cid(b) !in omit
    decreases l
  {
    if b != l.content {
      ProofsRanks(l.content.ucan.proofs, blocks, omit, b);
    }
  }

  lemma {:induction false} ProofsRanks(proofs: seq<Link>, blocks: seq<Block>, omit: seq<Link>, b: Block)
    requires ExportProofs(proofs, blocks, omit).Some? && b in ExportProofs(proofs, blocks, omit).value
    ensures Rank(Cid(b)) <= Top(proofs)
    ensures Included(Cid(b), blocks, omit)
    decreases proofs
  {
    var n := |proofs| - 1;
    if b in ExportProofs(proofs[..n], blocks, omit).value {
      ProofsRanks(proofs[..n], blocks, omit, b);
      assert forall l :: l in proofs[..n] ==> l in proofs;
      TopMonotone(proofs[..n], proofs);
    } else {
      ExportRanks(proofs[n], blocks, omit, b);
      RankBelowTop(proofs, proofs[n]);
    }
  }

  /** A proof cited in an export was included exactly when the export lists it. */
  lemma ProofListed(l: Link, blocks: seq<Block>, omit: seq<Link>, s: seq<Block>, b: Block, p: Link)
    requires ExportLink(l, blocks, omit) == Some(s) && BottomUp(s, blocks, omit)
    requires b in s && p in ProofsOf(Cid(b))
    ensures Included(p, blocks, omit) <==> p.content in s
    ensures Rank(p) < Rank(l)
  {
    hide ExportLink;
    var i :| 0 <= i < |s| && s[i] == b;
    ExportRanks(l, blocks, omit, b);
    RankBelowTop(ProofsOf(Cid(b)), p);
    assert p == Cid(p.content);
    if p.content in s {
      ExportRanks(l, blocks, omit, p.content);
    }
  }

  /** Rebuilding a store from an export and exporting again, omitting nothing, gives
      the same sequence. */
  lemma ExportIdempotent(d: Delegation, omit: seq<Link>)
    requires d.attached == [] && Exported(d, omit).Some?
    ensures Exported(Delegation(d.ucan, Distinct(Exported(d, omit).value), []), []) == Exported(d, omit)
  {
    hide ExportLink, Distinct, BottomUp;
    Unattached(d, omit);
    var s := Exported(d, omit).value;
    ExportBottomUp(d.Link(), d.blocks, omit);
    forall b, p | b in s && p in ProofsOf(Cid(b))
      ensures Included(p, d.blocks, omit) <==> Included(p, Distinct(s), [])
    {
      ProofListed(d.Link(), d.blocks, omit, s, b, p);
      DistinctHas(s, p.content);
    }
    ExportAgain(d.Link(), d.blocks, omit, Distinct(s));
    Unattached(Delegation(d.ucan, Distinct(s), []), []);
  }

  // ---- How often a block is listed ----

  /** The number of ways to go from `l` to `to` through included proofs. */
  function Ways(l: Link, to: Link, blocks: seq<Block>, omit: seq<Link>): nat
    decreases l
  {
    (if l == to then 1 else 0)
    + if l.content.Token? then WaysBelow(l.content.ucan.proofs, to, blocks, omit) else 0
  }

  function WaysBelow(proofs: seq<Link>, to: Link, blocks: seq<Block>, omit: seq<Link>): nat
    decreases proofs
  {
    if proofs == [] then 0
    else
      var n := |proofs| - 1;
      WaysBelow(proofs[..n], to, blocks, omit)
      + if Included(proofs[n], blocks, omit) then Ways(proofs[n], to, blocks, omit) else 0
  }

  /** A block is listed once for every way it is reached. */
  lemma {:induction false} ExportCounts(l: Link, blocks: seq<Block>, omit: seq<Link>, b: Block)
    requires ExportLink(l, blocks, omit).Some?
    ensures multiset(ExportLink(l, blocks, omit).value)[b] == Ways(l, Cid(b), blocks, omit)
    decreases l
  {
    ProofsCount(l.content.ucan.proofs, blocks, omit, b);
    assert l == Cid(l.content);
  }

  lemma {:induction false} ProofsCount(proofs: seq<Link>, blocks: seq<Block>, omit: seq<Link>, b: Block)
    requires ExportProofs(proofs, blocks, omit).Some?
    ensures multiset(ExportProofs(proofs, blocks, omit).value)[b] == WaysBelow(proofs, Cid(b), blocks, omit)
    decreases proofs
  {
    if proofs != [] {
      var n := |proofs| - 1;
      ProofsCount(proofs[..n], blocks, omit, b);
      if Included(proofs[n], blocks, omit) {
        ExportCounts(proofs[n], blocks, omit, b);
      }
    }
  }
}
