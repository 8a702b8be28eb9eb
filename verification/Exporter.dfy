/** The generator of core/delegation/delegation.go, run to its end. */
module Exporter {
  import opened Graph
  import opened Blockstore
  import opened Export

  method ExportFrom(l: Link, bs: BlockStore, omit: seq<Link>) returns (r: Option<seq<Block>>)
    requires l.content.Token? && bs.Valid()
    ensures r == ExportLink(l, bs.Contents(), omit)
    decreases l, 1
  {
    var below := ExportBelow(l, bs, omit);
    r := if below.None? then None else Some(below.value + [l.content]);
  }

  /** The blocks of the proofs that are at hand and not omitted, in order. */
  method ExportBelow(l: Link, bs: BlockStore, omit: seq<Link>) returns (r: Option<seq<Block>>)
    requires l.content.Token? && bs.Valid()
    ensures r == ExportProofs(l.content.ucan.proofs, bs.Contents(), omit)
    decreases l, 0
  {
    var out := [];
    var proofs := l.content.ucan.proofs;
    for i := 0 to |proofs|
      invariant ExportProofs(proofs[..i], bs.Contents(), omit) == Some(out)
    {
      assert proofs[..i + 1][..i] == proofs[..i];
      if proofs[i] in omit {
        continue;
      }
      var block := bs.Get(proofs[i]);
      if block.None? {
        continue;
      }
      if !block.value.Token? {
        ExportStops(proofs, bs.Contents(), omit, i);
        return None;
      }
      var exported := ExportFrom(proofs[i], bs, omit);
      if exported.None? {
        ExportStops(proofs, bs.Contents(), omit, i);
        return None;
      }
      out := out + exported.value;
    }
    assert proofs[..|proofs|] == proofs;
    r := Some(out);
  }

  lemma {:induction false} ExportStops(proofs: seq<Link>, blocks: seq<Block>, omit: seq<Link>, i: nat)
    requires i < |proofs| && Included(proofs[i], blocks, omit) && ExportLink(proofs[i], blocks, omit).None?
    ensures ExportProofs(proofs, blocks, omit) == None
    decreases |proofs|
  {
    if i < |proofs| - 1 {
      ExportStops(proofs[..|proofs| - 1], blocks, omit, i);
    }
  }

  /** The blocks of a delegation's own graph, and those attached to it. */
  method ExportDelegation(d: Delegation, bs: BlockStore, omit: seq<Link>) returns (r: Option<seq<Block>>)
    requires bs.Valid() && bs.Contents() == d.blocks
    ensures r == Exported(d, omit)
  {
    var below := ExportBelow(d.Link(), bs, omit);
    r := if below.None? then None else Some(below.value + d.attached + [Token(d.ucan)]);
  }
}
