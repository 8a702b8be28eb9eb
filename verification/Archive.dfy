/** Archives of a delegation (core/delegation/delegation.go): its exported blocks, then a
    descriptor that names its root. */
module Archive {
  import opened Graph
  import opened Blockstore
  import opened Export

  /** What an archive carries: the roots of its header and its blocks in order. */
  datatype Contents = Contents(roots: seq<Link>, blocks: seq<Block>)

  function ArchiveOf(d: Delegation): Option<Contents> {
    match Exported(d, [])
    case None => None
    case Some(s) => Some(Contents([Cid(Variant(d.Link()))], s + [Variant(d.Link())]))
  }

  datatype ExtractError =
    | NoRoot
    | ManyRoots
    | MissingRoot(link: Link)
    | NotADescriptor(block: Block)
    | NoDelegation(link: Link)

  function Extract(car: Contents): Result<Delegation, ExtractError> {
    if car.roots == [] then Err(NoRoot)
    else if |car.roots| > 1 then Err(ManyRoots)
    else
      var store, root := Distinct(car.blocks), car.roots[0];
      if root.content !in store then Err(MissingRoot(root))
      else if !root.content.Variant? then Err(NotADescriptor(root.content))
      else
        match View(root.content.root, store)
        case None => Err(NoDelegation(root.content.root))
        case Some(d) => Ok(d)
  }

  /** Whatever was attached, extracting an archive gives back the token, and a store of
      exactly the blocks of the archive. */
  lemma ExtractsArchive(d: Delegation, b: Block)
    requires ArchiveOf(d).Some?
    ensures var e := Extract(ArchiveOf(d).value);
      && e.Ok? && e.value.ucan == d.ucan && e.value.attached == []
      && (b in e.value.blocks <==> b in Exported(d, []).value || b == Variant(d.Link()))
  {
    var all := ArchiveOf(d).value.blocks;
    assert all == Exported(d, []).value + [Variant(d.Link())];
    assert Token(d.ucan) in Exported(d, []).value;
    DistinctHas(all, Variant(d.Link()));
    DistinctHas(all, Token(d.ucan));
    DistinctHas(all, b);
  }

  /** Without attachments the extracted delegation exports the very same sequence: the
      descriptor ranks above the root, so nothing below the root can cite it. */
  lemma ArchiveRoundTrip(d: Delegation)
    requires d.attached == [] && ArchiveOf(d).Some?
    ensures Extract(ArchiveOf(d).value).Ok?
    ensures Extract(ArchiveOf(d).value).value.Link() == d.Link()
    ensures Exported(Extract(ArchiveOf(d).value).value, []) == Exported(d, [])
  {
    ExtractsArchive(d, Token(d.ucan));
    var e := Extract(ArchiveOf(d).value).value;
    Unattached(d, []);
    Unattached(e, []);
    var s := Exported(d, []).value;
    ExportBottomUp(d.Link(), d.blocks, []);
    forall b, p | b in s && p in ProofsOf(Cid(b))
      ensures Included(p, d.blocks, []) <==> Included(p, e.blocks, [])
    {
      ProofListed(d.Link(), d.blocks, [], s, b, p);
      ExtractsArchive(d, p.content);
    }
    ExportAgain(d.Link(), d.blocks, [], e.blocks);
  }

  /** Attached blocks survive archiving and exporting again exactly when the archive
      links them below the root. */
  lemma SurvivesIffReached(d: Delegation, e: Delegation, b: Block)
    requires ArchiveOf(d).Some? && Extract(ArchiveOf(d).value) == Ok(e)
    requires Exported(e, []).Some?
    ensures b in Exported(e, []).value <==> Reaches(d.Link(), Cid(b), Open(e.blocks, []))
  {
    ExtractsArchive(d, b);
    Unattached(e, []);
    ExportCovers(d.Link(), e.blocks, [], b);
  }

  /** A note attached to a delegation is archived, and lost when that is exported again. */
  lemma AttachmentLost(u: Ucan, note: string)
    requires u.proofs == []
    ensures var d := Delegation(u, [], [Raw(note)]);
      && ArchiveOf(d).Some? && Extract(ArchiveOf(d).value).Ok?
      && Raw(note) in Extract(ArchiveOf(d).value).value.Blocks()
      && Exported(Extract(ArchiveOf(d).value).value, []) == Some([Token(u)])
  {
    var d := Delegation(u, [], [Raw(note)]);
    assert ExportProofs(u.proofs, d.blocks, []) == Some([]);
    assert Exported(d, []).value == [Raw(note), Token(u)];
    assert Exported(d, []).value[0] == Raw(note);
    ExtractsArchive(d, Raw(note));
    var e := Extract(ArchiveOf(d).value).value;
    assert ExportProofs(u.proofs, e.blocks, []) == Some([]);
    assert Exported(e, []).value == [Token(u)];
  }

  /** An archive is extracted exactly when its one root is the descriptor of a token among
      its blocks, and then to that token over all of them. */
  lemma ExtractIff(car: Contents, d: Delegation)
    ensures Extract(car) == Ok(d) <==>
      && car.roots == [Cid(Variant(d.Link()))]
      && Variant(d.Link()) in car.blocks && Token(d.ucan) in car.blocks
      && d.blocks == Distinct(car.blocks) && d.attached == []
  {
    DistinctHas(car.blocks, Token(d.ucan));
    DistinctHas(car.blocks, Variant(d.Link()));
    if Extract(car) == Ok(d) {
      DistinctHas(car.blocks, car.roots[0].content);
      assert car.roots[0] == Cid(car.roots[0].content);
    }
  }

  /** Otherwise the error says which of these it lacks. */
  lemma NotExtractedWhy(car: Contents, e: ExtractError)
    ensures Extract(car) == Err(e) <==> match e
      case NoRoot => car.roots == []
      case ManyRoots => |car.roots| > 1
      case MissingRoot(l) => car.roots == [l] && l.content !in car.blocks
      case NotADescriptor(b) => car.roots == [Cid(b)] && b in car.blocks && !b.Variant?
      case NoDelegation(l) =>
        && car.roots == [Cid(Variant(l))] && Variant(l) in car.blocks
        && !(l.content.Token? && l.content in car.blocks)
  {
    if |car.roots| == 1 {
      var root := car.roots[0];
      assert root == Cid(root.content);
      DistinctHas(car.blocks, root.content);
      if root.content.Variant? {
        DistinctHas(car.blocks, root.content.root.content);
      }
    }
  }

  /** An archive lists proofs before what cites them, then the root, then the descriptor. */
  lemma ArchiveBottomUp(d: Delegation)
    requires d.attached == [] && ArchiveOf(d).Some?
    ensures var s := ArchiveOf(d).value.blocks; var n := |s| - 2;
      n >= 0 && s[n..] == [Token(d.ucan), Variant(d.Link())] && BottomUp(s, d.blocks, [])
  {
    Unattached(d, []);
    ExportBottomUp(d.Link(), d.blocks, []);
    var s := Exported(d, []).value;
    BottomUpConcat(s, [Variant(d.Link())], d.blocks, []);
  }
}
