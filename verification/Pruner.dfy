/** The loops of proof pruning (validator/proof_pruning.go). */
module Pruner {
  import opened Graph
  import opened Capabilities
  import opened Validation
  import opened Blockstore
  import opened Export
  import opened Pruning
  import Validator

  lemma {:induction false} CollectConcat(seen: seq<Delegation>, a: seq<Delegation>, b: seq<Delegation>)
    ensures Collect(seen, a + b) == Collect(Collect(seen, a), b)
  {
    if b == [] {
      assert a + b == a;
    } else {
      var n := |b| - 1;
      assert (a + b)[..|a + b| - 1] == a + b[..n];
      CollectConcat(seen, a, b[..n]);
    }
  }

  lemma {:induction false} NodesOfSnoc(s: seq<Auth>, i: nat)
    requires i < |s|
    ensures NodesOf(s[..i + 1]) == NodesOf(s[..i]) + Nodes(s[i])
  {
    if i > 0 {
      NodesOfSnoc(s[1..], i - 1);
      assert s[1..][..i] == s[..i + 1][1..] && s[1..][..i - 1] == s[..i][1..];
    } else {
      assert s[..1] == [s[0]] && s[..0] == [];
    }
  }

  /** Gathers the delegations of an authorization, each once. */
  class Walker {
    var seen: set<Link>
    var result: seq<Delegation>

    ghost predicate Valid()
      reads this
    {
      forall l :: l in seen <==> Holds(result, l)
    }

    constructor ()
      ensures Valid() && result == []
    {
      seen, result := {}, [];
    }

    method Walk(a: Auth)
      requires Valid()
      modifies this
      ensures Valid() && result == Collect(old(result), Nodes(a))
      decreases a
    {
      ghost var start := result;
      var d := a.Delegation();
      if d.Link() !in seen {
        forall l
          ensures Holds(result + [d], l) <==> Holds(result, l) || d.Link() == l
        {
          HoldsSnoc(result, d, l);
        }
        seen := seen + {d.Link()};
        result := result + [d];
      }
      assert [d][..0] == [];
      ghost var here := result;
      assert here == Collect(start, [d]);
      WalkAll(a.proofs);
      CollectConcat(start, [d], NodesOf(a.proofs));
      WalkAll(a.attestations);
      CollectConcat(start, [d] + NodesOf(a.proofs), NodesOf(a.attestations));
    }

    method WalkAll(s: seq<Auth>)
      requires Valid()
      modifies this
      ensures Valid() && result == Collect(old(result), NodesOf(s))
      decreases s
    {
      ghost var start := result;
      for i := 0 to |s|
        invariant Valid() && result == Collect(start, NodesOf(s[..i]))
      {
        NodesOfSnoc(s, i);
        CollectConcat(start, NodesOf(s[..i]), Nodes(s[i]));
        Walk(s[i]);
      }
      assert s[..|s|] == s;
    }
  }

  method SelectProofs(desc: Descriptor, proofs: seq<Proof>, ctx: Context)
      returns (r: Result<seq<Delegation>, Unauthorized>)
    ensures r == Pruning.SelectProofs(desc, proofs, ctx)
  {
    var auth := Validator.Claim(desc, proofs, ctx);
    if auth.Err? {
      return Err(auth.error);
    }
    var walker := new Walker();
    walker.Walk(auth.value);
    r := Ok(walker.result);
  }

  method PruneProofs(desc: Descriptor, d: Delegation, ctx: Context) returns (r: Result<seq<Delegation>, PruneError>)
    ensures r == Pruning.PruneProofs(desc, d, ctx)
  {
    var all := SelectProofs(desc, [Full(d)], ctx);
    if all.Err? {
      return Err(Unprovable(all.error));
    }
    r := ReexportAll(all.value, d.Link());
  }

  /** Gives each delegation a store with only the blocks of its own chain. */
  method ReexportAll(all: seq<Delegation>, root: Link) returns (r: Result<seq<Delegation>, PruneError>)
    ensures r == Reexport(all, root)
  {
    var result := [];
    for i := 0 to |all|
      invariant Reexport(all[..i], root) == Ok(result)
    {
      var d := all[i];
      assert all[..i + 1][..i] == all[..i];
      if d.Link() == root {
        continue;
      }
      var exported := Exported(d, []);
      if exported.None? {
        ReexportStops(all, root, i);
        return Err(NotExportable(d));
      }
      var bs := new BlockStore(exported.value);
      var blocks := bs.Iterator();
      result := result + [Delegation(d.ucan, blocks, [])];
    }
    assert all[..|all|] == all;
    r := Ok(result);
  }

  lemma {:induction false} ReexportStops(all: seq<Delegation>, root: Link, i: nat)
    requires i < |all| && Reexport(all[..i], root).Ok?
    requires all[i].Link() != root && Exported(all[i], []).None?
    ensures Reexport(all, root) == Err(NotExportable(all[i]))
    decreases |all|
  {
    if i < |all| - 1 {
      var n := |all| - 1;
      assert all[..n][..i] == all[..i];
      ReexportStops(all[..n], root, i);
    }
  }
}
