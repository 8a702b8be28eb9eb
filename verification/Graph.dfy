/** The content-addressed graph of delegations shared by the validator, the
    delegation exporter and the retrieval protocol.

    Hashing is idealised: a link is the content it addresses, wrapped in `Cid`, so
    links are injective and, tokens being finite values, every proof graph is acyclic. */
module Graph {

  datatype Option<+T> = None | Some(value: T)

  datatype Result<+R, +E> = Ok(value: R) | Err(error: E)

  type Did = string

  /** Caveats: the one shape the validator itself interprets, and everything else. */
  datatype Nb = Attestation(proof: Link) | Fields(data: string)

  datatype Capability = Capability(can: string, with: string, nb: Nb)

  /** A decoded token. A token has at least one capability: `first`, then `more`.
      `rest` stands for nonce, facts and signature bytes. */
  datatype Ucan = Ucan(
    issuer: Did,
    audience: Did,
    first: Capability,
    more: seq<Capability>,
    proofs: seq<Link>,
    expiration: Option<int>,
    notBefore: int,
    rest: string)
  {
    function Capabilities(): seq<Capability> { [first] + more }
  }

  /** What a block decodes to: a token, the descriptor of a delegation archive, or neither. */
  datatype Block = Token(ucan: Ucan) | Variant(root: Link) | Raw(data: string)

  datatype Link = Cid(content: Block)

  /** A token together with the blocks that back its view and those attached to it. */
  datatype Delegation = Delegation(ucan: Ucan, blocks: seq<Block>, attached: seq<Block>)
  {
    function Link(): Link { Cid(Token(ucan)) }

    function Blocks(): seq<Block> { blocks + attached }
  }

  function View(link: Link, blocks: seq<Block>): Option<Delegation> {
    if link.content in blocks && link.content.Token?
    then Some(Delegation(link.content.ucan, blocks, []))
    else None
  }

  function Links(ds: seq<Delegation>): (r: seq<Link>)
    ensures |r| == |ds| && forall i :: 0 <= i < |ds| ==> r[i] == ds[i].Link()
  {
    seq(|ds|, i requires 0 <= i < |ds| => ds[i].Link())
  }

  /** No two delegations have the same link. */
  ghost predicate NoRepeats(ds: seq<Delegation>) {
    forall i, j :: 0 <= i < j < |ds| ==> ds[i].Link() != ds[j].Link()
  }

  // ---- Ranks: proofs rank strictly below the token that cites them ----

  function Rank(l: Link): nat
    decreases l
  {
    match l.content
    case Token(u) => 1 + Top(u.proofs)
    case Variant(root) => 1 + Rank(root)
    case Raw(_) => 0
  }

  function Top(ls: seq<Link>): nat
    decreases ls
  {
    if ls == [] then 0 else Max(Rank(ls[0]), Top(ls[1..]))
  }

  function Max(a: nat, b: nat): nat { if a < b then b else a }

  lemma {:induction false} RankBelowTop(ls: seq<Link>, l: Link)
    requires l in ls
    ensures Rank(l) <= Top(ls)
  {
    if l != ls[0] {
      RankBelowTop(ls[1..], l);
    }
  }

  lemma RanksBelowTop(ls: seq<Link>)
    ensures forall i :: 0 <= i < |ls| ==> Rank(ls[i]) <= Top(ls)
  {
    forall i | 0 <= i < |ls|
      ensures Rank(ls[i]) <= Top(ls)
    {
      RankBelowTop(ls, ls[i]);
    }
  }

  lemma {:induction false} TopIsLeast(ls: seq<Link>, n: nat)
    requires forall l :: l in ls ==> Rank(l) <= n
    ensures Top(ls) <= n
  {
    if ls != [] {
      assert ls[0] in ls;
      TopIsLeast(ls[1..], n);
    }
  }

  lemma TopMonotone(ls: seq<Link>, ms: seq<Link>)
    requires forall l :: l in ls ==> l in ms
    ensures Top(ls) <= Top(ms)
  {
    forall l | l in ls
      ensures Rank(l) <= Top(ms)
    {
      RankBelowTop(ms, l);
    }
    TopIsLeast(ls, Top(ms));
  }

  // ---- Paths ----

  function ProofsOf(l: Link): seq<Link> {
    if l.content.Token? then l.content.ucan.proofs else []
  }

  /** `path` follows proof links from `from` to `to`; every link after the first is in `open`. */
  ghost predicate Path(from: Link, path: seq<Link>, to: Link, open: set<Link>) {
    && path != [] && path[0] == from && path[|path| - 1] == to
    && forall i :: 0 <= i < |path| - 1 ==> Follows(path[i], path[i + 1], open)
  }

  predicate Follows(from: Link, to: Link, open: set<Link>) {
    to in ProofsOf(from) && to in open
  }

  ghost predicate Reaches(from: Link, to: Link, open: set<Link>) {
    exists path :: Path(from, path, to, open)
  }

  lemma ReachesSelf(l: Link, open: set<Link>)
    ensures Reaches(l, l, open)
  {
    assert Path(l, [l], l, open);
  }

  lemma ReachesStep(from: Link, next: Link, to: Link, open: set<Link>)
    requires Follows(from, next, open) && Reaches(next, to, open)
    ensures Reaches(from, to, open)
  {
    var path :| Path(next, path, to, open);
    var path' := [from] + path;
    assert forall i :: 0 < i < |path'| ==> path'[i] == path[i - 1];
    assert forall i :: 0 < i < |path'| - 1 ==> Follows(path[i - 1], path[i], open);
    assert Path(from, path', to, open);
  }

  lemma ReachesSplit(from: Link, to: Link, open: set<Link>) returns (next: Link)
    requires Reaches(from, to, open) && from != to
    ensures Follows(from, next, open) && Reaches(next, to, open)
  {
    var path :| Path(from, path, to, open);
    next := path[1];
    assert Path(next, path[1..], to, open);
  }

  /** Reaching on: a path may be extended at its end. */
  lemma ReachesOn(from: Link, last: Link, to: Link, open: set<Link>)
    requires Reaches(from, last, open) && Follows(last, to, open)
    ensures Reaches(from, to, open)
  {
    var path :| Path(from, path, last, open);
    assert Path(from, path + [to], to, open);
  }

  lemma ReachesMore(from: Link, to: Link, open: set<Link>, open': set<Link>)
    requires Reaches(from, to, open) && open <= open'
    ensures Reaches(from, to, open')
  {
    var path :| Path(from, path, to, open);
    assert forall i :: 0 <= i < |path| - 1 ==> Follows(path[i], path[i + 1], open);
    assert Path(from, path, to, open');
  }

  /** `to` is `from`, one of its proofs, one of theirs, and so on. */
  ghost predicate Descends(from: Link, to: Link) {
    exists open :: Reaches(from, to, open)
  }

  lemma DescendsOn(from: Link, last: Link, to: Link)
    requires Descends(from, last) && to in ProofsOf(last)
    ensures Descends(from, to)
  {
    var open :| Reaches(from, last, open);
    ReachesMore(from, last, open, open + {to});
    ReachesOn(from, last, to, open + {to});
  }

  lemma DescendsThrough(from: Link, via: Link, to: Link)
    requires Descends(from, via) && Descends(via, to)
    ensures Descends(from, to)
  {
    var one :| Reaches(from, via, one);
    var two :| Reaches(via, to, two);
    var path :| Path(via, path, to, two);
    ReachesMore(from, via, one, one + two);
    for i := 0 to |path|
      invariant i > 0 ==> Reaches(from, path[i - 1], one + two)
    {
      if i > 0 {
        assert Follows(path[i - 1], path[i], two);
        ReachesOn(from, path[i - 1], path[i], one + two);
      }
    }
  }

  lemma DescendsFrom(from: Link, next: Link, to: Link)
    requires next in ProofsOf(from) && Descends(next, to)
    ensures Descends(from, to)
  {
    ReachesSelf(from, {});
    DescendsOn(from, from, next);
    DescendsThrough(from, next, to);
  }
}
