/** Proof pruning (validator/proof_pruning.go): the proofs an authorization used are
    enough to be authorized again. */
module Pruning {
  import opened Graph
  import opened Capabilities
  import opened Validation
  import opened Blockstore
  import opened Export

  /** The delegations of an authorization, in the order they are visited: itself, its
      proofs, then its attestations. */
  function Nodes(a: Auth): (r: seq<Delegation>)
    ensures r != [] && r[0] == a.Delegation()
    decreases a
  {
    [a.Delegation()] + NodesOf(a.proofs) + NodesOf(a.attestations)
  }

  function NodesOf(s: seq<Auth>): seq<Delegation>
    decreases s
  {
    if s == [] then [] else Nodes(s[0]) + NodesOf(s[1..])
  }

  predicate Holds(ds: seq<Delegation>, l: Link) {
    exists i :: 0 <= i < |ds| && ds[i].Link() == l
  }

  /** Adds the delegations whose links are new, in order. */
  function Collect(seen: seq<Delegation>, ds: seq<Delegation>): seq<Delegation> {
    if ds == [] then seen
    else
      var r := Collect(seen, ds[..|ds| - 1]);
      var d := ds[|ds| - 1];
      if Holds(r, d.Link()) then r else r + [d]
  }

  datatype PruneError = Unprovable(error: Unauthorized) | NotExportable(delegation: Delegation)

  function SelectProofs(desc: Descriptor, proofs: seq<Proof>, ctx: Context): Result<seq<Delegation>, Unauthorized> {
    match Claim(desc, proofs, ctx)
    case Err(e) => Err(e)
    case Ok(a) => Ok(Collect([], Nodes(a)))
  }

  /** Re-exported views of all but the delegation with link `root`. */
  function Reexport(ds: seq<Delegation>, root: Link): Result<seq<Delegation>, PruneError> {
    if ds == [] then Ok([])
    else
      var d := ds[|ds| - 1];
      match Reexport(ds[..|ds| - 1], root)
      case Err(e) => Err(e)
      case Ok(r) =>
        if d.Link() == root then Ok(r)
        else match Exported(d, [])
          case None => Err(NotExportable(d))
          case Some(s) => Ok(r + [Delegation(d.ucan, Distinct(s), [])])
  }

  function PruneProofs(desc: Descriptor, d: Delegation, ctx: Context): Result<seq<Delegation>, PruneError> {
    match SelectProofs(desc, [Full(d)], ctx)
    case Err(e) => Err(Unprovable(e))
    case Ok(all) => Reexport(all, d.Link())
  }

  // ---- What the selection holds ----

  lemma HoldsSnoc(ds: seq<Delegation>, d: Delegation, l: Link)
    ensures Holds(ds + [d], l) <==> Holds(ds, l) || d.Link() == l
  {
    if Holds(ds, l) {
      var i :| 0 <= i < |ds| && ds[i].Link() == l;
      assert (ds + [d])[i].Link() == l;
    }
    assert (ds + [d])[|ds|] == d;
  }

  lemma NoRepeatsSnoc(ds: seq<Delegation>, d: Delegation)
    requires NoRepeats(ds) && !Holds(ds, d.Link())
    ensures NoRepeats(ds + [d])
  {
  }

  lemma NothingHeld(l: Link)
    ensures NoRepeats([]) && !Holds([], l)
  {
  }

  lemma NoRepeatsSplit(ds: seq<Delegation>)
    requires NoRepeats(ds) && ds != []
    ensures NoRepeats(ds[..|ds| - 1]) && !Holds(ds[..|ds| - 1], ds[|ds| - 1].Link())
  {
  }

  lemma {:induction false} CollectKeeps(seen: seq<Delegation>, ds: seq<Delegation>, l: Link)
    requires NoRepeats(seen)
    ensures NoRepeats(Collect(seen, ds))
    ensures Holds(Collect(seen, ds), l) <==> Holds(seen, l) || Holds(ds, l)
  {
    if ds != [] {
      var n := |ds| - 1;
      var r := Collect(seen, ds[..n]);
      CollectKeeps(seen, ds[..n], l);
      assert ds == ds[..n] + [ds[n]];
      HoldsSnoc(ds[..n], ds[n], l);
      HoldsSnoc(r, ds[n], l);
      if !Holds(r, ds[n].Link()) {
        NoRepeatsSnoc(r, ds[n]);
      }
    }
  }

  lemma {:induction false} ReexportKeeps(ds: seq<Delegation>, root: Link, l: Link)
    requires Reexport(ds, root).Ok? && NoRepeats(ds)
    ensures NoRepeats(Reexport(ds, root).value)
    ensures Holds(Reexport(ds, root).value, l) <==> Holds(ds, l) && l != root
    ensures forall e :: e in Reexport(ds, root).value ==> Token(e.ucan) in e.blocks
  {
    hide Holds, NoRepeats;
    if ds == [] {
      NothingHeld(l);
    } else {
      var n := |ds| - 1;
      var r := Reexport(ds[..n], root).value;
      NoRepeatsSplit(ds);
      ReexportKeeps(ds[..n], root, l);
      assert ds == ds[..n] + [ds[n]];
      HoldsSnoc(ds[..n], ds[n], l);
      if ds[n].Link() != root {
        var e := Delegation(ds[n].ucan, Distinct(Exported(ds[n], []).value), []);
        DistinctHas(Exported(ds[n], []).value, Token(ds[n].ucan));
        HoldsSnoc(r, e, l);
        ReexportKeeps(ds[..n], root, e.Link());
        NoRepeatsSnoc(r, e);
        assert Reexport(ds, root).value == r + [e];
      }
    }
  }
}
