/** The client's side of a partitioned invocation (client/retrieval/connection.go), and
    the two sides together. */
module Negotiation {
  import opened Graph
  import opened DelegationCache
  import opened Blockstore
  import opened Export
  import opened Extraction

  // ---- The client ----

  /** The part to send next, and the parts not sent yet. */
  datatype Client = Client(part: Delegation, parts: map<Link, Delegation>)

  function OmitProofs(d: Delegation): Option<Delegation> {
    match Exported(d, d.ucan.proofs)
    case None => None
    case Some(s) => Some(Delegation(d.ucan, Distinct(s), []))
  }

  /** One part for every delegation below the worklist; links are not remembered, so a
      shared proof is prepared again each time it is reached. */
  function BuildParts(work: seq<Link>, blocks: seq<Block>, parts: map<Link, Delegation>): Option<map<Link, Delegation>>
    decreases Weights(work)
  {
    if work == [] then Some(parts)
    else
      VisitLightens(work);
      match View(work[0], blocks)
      case None => None
      case Some(d) =>
        match OmitProofs(d)
        case None => None
        case Some(part) => BuildParts(work[1..] + ProofsOf(work[0]), blocks, parts[part.Link() := part])
  }

  /** `None` when the invocation cannot be taken apart or has no proofs to set aside. */
  function Start(invocation: Delegation): Option<Client> {
    match Exported(invocation, [])
    case None => None
    case Some(s) =>
      match OmitProofs(invocation)
      case None => None
      case Some(part) =>
        match BuildParts(invocation.ucan.proofs, Distinct(s), map[])
        case None => None
        case Some(parts) => if parts == map[] then None else Some(Client(part, parts))
  }

  /** The blocks of the message that carries a part. */
  function Message(part: Delegation): Option<seq<Block>> {
    match Exported(part, [])
    case None => None
    case Some(s) => Some(Distinct(s))
  }

  /** Answering a list of missing proofs with the first of them, once. */
  function Next(c: Client, missing: seq<Link>): Option<Client> {
    if missing == [] || missing[0] !in c.parts then None
    else Some(Client(c.parts[missing[0]], c.parts - {missing[0]}))
  }

  /** What a server may answer: success, a refusal, or a list of missing proofs. */
  datatype Response = Accepted | Refused | NotExtended(missing: seq<Link>)

  /** The links of the parts sent to a server that gives these answers. */
  function Sent(c: Client, responses: seq<Response>): seq<Link>
    decreases |c.parts|
  {
    [c.part.Link()] +
    if responses == [] || !responses[0].NotExtended? then []
    else match Next(c, responses[0].missing)
      case None => []
      case Some(c') => Sent(c', responses[1..])
  }

  /** The parts still held when the client stops. */
  function Left(c: Client, responses: seq<Response>): map<Link, Delegation>
    decreases |c.parts|
  {
    if responses == [] || !responses[0].NotExtended? then c.parts
    else match Next(c, responses[0].missing)
      case None => c.parts
      case Some(c') => Left(c', responses[1..])
  }

  // ---- What the client knows ----

  ghost predicate WellFormed(c: Client) {
    && c.part.Link() !in c.parts && c.part.attached == []
    && forall l :: l in c.parts ==> c.parts[l].Link() == l && Single(c.parts[l])
  }

  /** A part that carries nothing but its own token. */
  predicate Single(part: Delegation) {
    part.blocks == [Token(part.ucan)] && part.attached == []
  }

  lemma {:induction false} OmittedExport(proofs: seq<Link>, blocks: seq<Block>, omit: seq<Link>)
    requires forall p :: p in proofs ==> p in omit
    ensures ExportProofs(proofs, blocks, omit) == Some([])
    decreases |proofs|
  {
    if proofs != [] {
      assert forall p :: p in proofs[..|proofs| - 1] ==> p in proofs;
      OmittedExport(proofs[..|proofs| - 1], blocks, omit);
    }
  }

  lemma OmittedSingle(d: Delegation)
    ensures OmitProofs(d).Some? && OmitProofs(d).value.ucan == d.ucan && OmitProofs(d).value.attached == []
    ensures d.attached == [] ==> Single(OmitProofs(d).value)
  {
    OmittedExport(d.ucan.proofs, d.blocks, d.ucan.proofs);
    if d.attached == [] {
      assert Exported(d, d.ucan.proofs).value == [Token(d.ucan)];
      DistinctOne(Token(d.ucan));
    }
  }

  /** The parts are the delegations below the worklist, each under its own link. */
  lemma {:induction false} PartsBelow(work: seq<Link>, blocks: seq<Block>, parts: map<Link, Delegation>, l: Link)
    requires BuildParts(work, blocks, parts).Some?
    requires forall k :: k in parts ==> parts[k].Link() == k && Single(parts[k])
    ensures var r := BuildParts(work, blocks, parts).value;
      && (l in r <==> l in parts || exists w :: w in work && Descends(w, l))
      && (l in r && l !in parts ==> l.content.Token?)
      && forall k :: k in r ==> r[k].Link() == k && Single(r[k])
    decreases Weights(work)
  {
    if work != [] {
      VisitLightens(work);
      var h := work[0];
      var d := View(h, blocks).value;
      assert d.Link() == h;
      OmittedSingle(d);
      var part := OmitProofs(d).value;
      var rest := work[1..] + ProofsOf(h);
      PartsBelow(rest, blocks, parts[part.Link() := part], l);
      BelowHead(work, l);
    }
  }

  lemma BelowHead(work: seq<Link>, l: Link)
    requires work != []
    ensures (exists w :: w in work && Descends(w, l))
       <==> l == work[0] || exists w :: w in work[1..] + ProofsOf(work[0]) && Descends(w, l)
  {
    var h := work[0];
    assert work == [h] + work[1..];
    ReachesSelf(h, {});
    if Descends(h, l) && l != h {
      var open :| Reaches(h, l, open);
      var next := ReachesSplit(h, l, open);
      assert next in work[1..] + ProofsOf(h) && Descends(next, l);
    }
    if w :| w in work[1..] + ProofsOf(h) && Descends(w, l) {
      if w in ProofsOf(h) {
        DescendsFrom(h, w, l);
        assert h in work;
      } else {
        assert w in work;
      }
    }
  }

  lemma {:induction false} DescendsRank(from: Link, to: Link)
    requires Descends(from, to)
    ensures to == from || Rank(to) < Rank(from)
    decreases from
  {
    if from != to {
      var open :| Reaches(from, to, open);
      var next := ReachesSplit(from, to, open);
      RankBelowTop(ProofsOf(from), next);
      DescendsRank(next, to);
    }
  }

  /** The client starts with the invocation in hand and every delegation below it set aside. */
  lemma StartsWithAll(invocation: Delegation, c: Client)
    requires Start(invocation) == Some(c)
    ensures WellFormed(c) && c.part.Link() == invocation.Link()
    ensures invocation.attached == [] ==> Single(c.part)
    ensures forall l :: l in c.parts <==> Descends(invocation.Link(), l) && l != invocation.Link()
    ensures forall l :: l in c.parts ==> l.content.Token?
  {
    var root := invocation.Link();
    var blocks := Distinct(Exported(invocation, []).value);
    OmittedSingle(invocation);
    forall l
      ensures l in c.parts <==> Descends(root, l) && l != root
      ensures l in c.parts ==> l.content.Token? && c.parts[l].Link() == l && Single(c.parts[l])
    {
      PartsBelow(ProofsOf(root), blocks, map[], l);
      BelowHead([root], l);
      assert [root][1..] + ProofsOf(root) == ProofsOf(root);
      assert forall w :: w in [root] <==> w == root;
      if l in c.parts {
        var w :| w in ProofsOf(root) && Descends(w, l);
        DescendsRank(w, l);
        RankBelowTop(ProofsOf(root), w);
        DescendsFrom(root, w, l);
      }
    }
    ReachesSelf(root, {});
  }

  /** The first part carries the invocation's token and what is attached to it. */
  lemma FirstPartHolds(invocation: Delegation, c: Client, b: Block)
    requires Start(invocation) == Some(c)
    ensures b in c.part.blocks <==> b == Token(invocation.ucan) || b in invocation.attached
  {
    OmittedExport(invocation.ucan.proofs, invocation.blocks, invocation.ucan.proofs);
    DistinctHas(Exported(invocation, invocation.ucan.proofs).value, b);
  }

  /** A request carries what is linked below its part in the part's own store; the rest of
      what was attached to the invocation is not sent. */
  lemma MessageCarries(part: Delegation, b: Block)
    requires part.attached == [] && Message(part).Some?
    ensures b in Message(part).value <==> Reaches(part.Link(), Cid(b), Open(part.blocks, []))
  {
    ExportedCovers(part, [], b);
    DistinctHas(Exported(part, []).value, b);
  }

  // ---- Any server at all ----

  ghost predicate NoRepeatedLinks(s: seq<Link>) {
    forall i, j :: 0 <= i < j < |s| ==> s[i] != s[j]
  }

  /** Whatever a server answers, each delegation is sent at most once, and only those
      that were still held. */
  lemma {:induction false} SendsOnce(c: Client, responses: seq<Response>)
    requires WellFormed(c)
    ensures var sent := Sent(c, responses);
      && sent != [] && sent[0] == c.part.Link() && |sent| <= |c.parts| + 1
      && NoRepeatedLinks(sent)
      && forall i :: 0 < i < |sent| ==> sent[i] in c.parts
    decreases |c.parts|
  {
    if responses != [] && responses[0].NotExtended? && Next(c, responses[0].missing).Some? {
      var c' := Next(c, responses[0].missing).value;
      var sent, later := Sent(c, responses), Sent(c', responses[1..]);
      SendsOnce(c', responses[1..]);
      assert forall i :: 0 < i < |sent| ==> sent[i] == later[i - 1];
      assert forall i :: 0 < i < |later| ==> later[i] in c'.parts;
    }
  }

  /** A step moves one delegation from those held to those sent. */
  lemma NextConserves(c: Client, missing: seq<Link>, c': Client)
    requires WellFormed(c) && Next(c, missing) == Some(c')
    ensures WellFormed(c') && c'.part.Link() == missing[0]
    ensures c'.parts.Keys + {c'.part.Link()} == c.parts.Keys
    ensures |c'.parts| + 1 == |c.parts|
  {
    assert c'.parts.Keys == c.parts.Keys - {missing[0]};
    assert |c'.parts.Keys| + 1 == |c.parts.Keys|;
  }

  lemma {:induction false} SentOrLeft(c: Client, responses: seq<Response>, l: Link)
    requires WellFormed(c)
    ensures (l in Sent(c, responses) || l in Left(c, responses)) <==> (l == c.part.Link() || l in c.parts)
    ensures !(l in Sent(c, responses) && l in Left(c, responses))
    ensures |Sent(c, responses)| + |Left(c, responses)| == |c.parts| + 1
    decreases |c.parts|
  {
    if responses != [] && responses[0].NotExtended? && Next(c, responses[0].missing).Some? {
      var c' := Next(c, responses[0].missing).value;
      NextConserves(c, responses[0].missing, c');
      SentOrLeft(c', responses[1..], l);
      assert Sent(c, responses) == [c.part.Link()] + Sent(c', responses[1..]);
      if l == c.part.Link() {
        assert l !in c'.parts;
      }
    }
  }

  /** Whatever answers a client gets, at any moment what it has sent and what it still
      holds are disjoint and together are the invocation and everything below it. */
  lemma RunConserves(invocation: Delegation, c: Client, responses: seq<Response>, l: Link)
    requires Start(invocation) == Some(c)
    ensures (l in Sent(c, responses) || l in Left(c, responses)) <==> Descends(invocation.Link(), l)
    ensures !(l in Sent(c, responses) && l in Left(c, responses))
    ensures |Sent(c, responses)| + |Left(c, responses)| == |c.parts| + 1
  {
    StartsWithAll(invocation, c);
    SentOrLeft(c, responses, l);
    ReachesSelf(invocation.Link(), {});
  }

  /** Against any server whatsoever, the client sends the invocation first, then only
      delegations below it, none of them twice: at most one request more than there
      are distinct proofs. */
  lemma AnyServer(invocation: Delegation, c: Client, responses: seq<Response>)
    requires Start(invocation) == Some(c)
    ensures var sent := Sent(c, responses);
      && sent[0] == invocation.Link() && NoRepeatedLinks(sent)
      && |sent| <= |c.parts| + 1
      && forall i :: 0 <= i < |sent| ==> Descends(invocation.Link(), sent[i])
  {
    StartsWithAll(invocation, c);
    SendsOnce(c, responses);
    ReachesSelf(invocation.Link(), {});
  }

  // ---- Client and server together ----

  /** Requests sent until the server extracts the invocation or one side gives up. */
  function Session(root: Link, c: Client, cache: Lru): (nat, Outcome)
    decreases |c.parts|
  {
    match Message(c.part)
    case None => (0, Failed)
    case Some(blocks) =>
      var (outcome, cache') := Extract(root, blocks, cache);
      if !outcome.MissingProofs? then (1, outcome)
      else match Next(c, outcome.proofs)
        case None => (1, Failed)
        case Some(c') =>
          assert c'.parts.Keys == c.parts.Keys - {outcome.proofs[0]};
          assert |c'.parts.Keys| < |c.parts.Keys|;
          var (rounds, end) := Session(root, c', cache');
          (rounds + 1, end)
  }

  lemma MessageHas(part: Delegation)
    requires part.attached == [] && forall l :: Descends(part.Link(), l) ==> l.content.Token?
    ensures Message(part).Some? && Token(part.ucan) in Message(part).value
    ensures forall b :: b in Message(part).value ==> Descends(part.Link(), Cid(b))
  {
    TokensExport(part.Link(), part.blocks, []);
    var s := Exported(part, []).value;
    var below := ExportProofs(part.ucan.proofs, part.blocks, []).value;
    assert s == below + [Token(part.ucan)];
    forall b
      ensures b in Distinct(s) <==> b in s
    {
      DistinctHas(s, b);
    }
    forall b | b in s
      ensures Descends(part.Link(), Cid(b))
    {
      ExportCovers(part.Link(), part.blocks, [], b);
      var open := Open(part.blocks, []);
      assert Reaches(part.Link(), Cid(b), open);
    }
  }

  lemma MessageOfSingle(part: Delegation)
    requires Single(part)
    ensures Message(part) == Some([Token(part.ucan)])
  {
    forall p | p in part.ucan.proofs
      ensures !Included(p, part.blocks, [])
    {
      RankBelowTop(part.ucan.proofs, p);
      assert p == Cid(p.content);
    }
    NothingIncluded(part.ucan.proofs, part.blocks, []);
    assert Exported(part, []).value == [Token(part.ucan)];
    DistinctOne(Token(part.ucan));
  }

  lemma {:induction false} NothingIncluded(proofs: seq<Link>, blocks: seq<Block>, omit: seq<Link>)
    requires forall p :: p in proofs ==> !Included(p, blocks, omit)
    ensures ExportProofs(proofs, blocks, omit) == Some([])
    decreases |proofs|
  {
    if proofs != [] {
      assert forall p :: p in proofs[..|proofs| - 1] ==> p in proofs;
      NothingIncluded(proofs[..|proofs| - 1], blocks, omit);
    }
  }

  /** `all` is every link below the root, and each is a token. */
  ghost predicate AllBelow(root: Link, all: set<Link>) {
    && (forall l :: Descends(root, l) <==> l in all)
    && (forall l :: l in all ==> l.content.Token?)
  }

  ghost predicate Asks(reached: set<Link>, l: Link) {
    exists q :: q in reached && l in ProofsOf(q)
  }

  /** `reached` holds together on its own, and asks for `part` unless that is the root. */
  ghost predicate Reached(root: Link, reached: set<Link>, part: Link) {
    && (forall l {:trigger Found([root], l, reached)} :: l in reached ==> Found([root], l, reached))
    && (part == root || (root in reached && Asks(reached, part)))
  }

  /** Everything but what the client still holds has been reached. */
  ghost predicate Unsent(c: Client, all: set<Link>, reached: set<Link>) {
    forall l :: l in all && l !in c.parts && l != c.part.Link() ==> l in reached
  }

  /** The session's invariant. `reached` is what the server's last walk visited: it is
      all still cached, it holds every part sent before, and it asks for the part in hand. */
  ghost predicate Ready(root: Link, c: Client, cache: Lru, all: set<Link>, reached: set<Link>) {
    && cache.Valid() && |all| <= cache.capacity + 1
    && AllBelow(root, all)
    && WellFormed(c) && c.part.Link() in all && c.parts.Keys <= all
    && reached <= all && reached <= cache.Keys()
    && Unsent(c, all, reached)
    && Reached(root, reached, c.part.Link())
  }

  lemma FoundMore(work: seq<Link>, l: Link, open: set<Link>, open': set<Link>)
    requires Found(work, l, open) && open <= open'
    ensures Found(work, l, open')
  {
    var w :| w in work && w in open && Reaches(w, l, open);
    ReachesMore(w, l, open, open');
  }

  /** `found` is what can be found from the root. */
  ghost predicate Finds(root: Link, found: set<Link>, open: set<Link>) {
    forall l {:trigger Found([root], l, open)} :: l in found <==> Found([root], l, open)
  }

  lemma SeenIsFound(root: Link, msg: seq<Block>, cache: Lru, w: Walk)
    requires cache.Valid() && w == WalkFrom([root], msg, cache) && w.Walked?
    ensures Finds(root, LinkSet(w.seen), AtHand(msg, cache))
  {
    forall l
      ensures l in LinkSet(w.seen) <==> Found([root], l, AtHand(msg, cache))
    {
      WalkFinds([root], msg, cache, l);
    }
  }

  /** What is found is found through links that are themselves found. */
  lemma FoundWithin(root: Link, l: Link, open: set<Link>, found: set<Link>)
    requires Found([root], l, open) && Finds(root, found, open)
    ensures Found([root], l, found)
  {
    var path :| Path(root, path, l, open);
    ReachesSelf(root, open);
    assert root in [root] && Found([root], root, open);
    ReachesSelf(root, found);
    for i := 1 to |path|
      invariant Reaches(root, path[i - 1], found) && path[i - 1] in found && Found([root], path[i - 1], open)
    {
      assert Follows(path[i - 1], path[i], open);
      ReachesOn(root, path[i - 1], path[i], open);
      assert Found([root], path[i], open);
      ReachesOn(root, path[i - 1], path[i], found);
    }
  }

  /** The part just sent, and all that was reached before, is reached again. */
  lemma ReachedAgain(root: Link, reached: set<Link>, part: Link, open: set<Link>, l: Link)
    requires Reached(root, reached, part)
    requires reached <= open && part in open
    requires l in reached || l == part
    ensures Found([root], l, open)
  {
    assert root in [root];
    if l in reached {
      assert Found([root], l, reached);
      FoundMore([root], l, reached, open);
    } else if l == root {
      ReachesSelf(root, open);
    } else {
      var q :| q in reached && l in ProofsOf(q);
      assert Found([root], q, reached);
      FoundMore([root], q, reached, open);
      ReachesOn(root, q, l, open);
    }
  }

  /** A request never finds a block that does not decode. */
  lemma RoundWalks(root: Link, c: Client, cache: Lru, all: set<Link>, reached: set<Link>, blocks: seq<Block>)
    requires Ready(root, c, cache, all, reached) && Message(c.part) == Some(blocks)
    ensures c.part.Link() in AtHand(Distinct(blocks), cache) && reached <= AtHand(Distinct(blocks), cache)
    ensures WalkFrom([root], Distinct(blocks), cache).Walked?
    ensures forall l :: Found([root], l, AtHand(Distinct(blocks), cache)) ==> l in all
    ensures AtHand(Distinct(blocks), cache) == AtHand(blocks, cache)
  {
    forall l | Descends(c.part.Link(), l)
      ensures l.content.Token?
    {
      DescendsThrough(root, c.part.Link(), l);
    }
    MessageHas(c.part);
    forall b
      ensures b in Distinct(blocks) <==> b in blocks
    {
      DistinctHas(blocks, b);
    }
    var open := AtHand(Distinct(blocks), cache);
    forall l | Found([root], l, open)
      ensures l in all
    {
      FoundDescends(root, l, open);
    }
    WalkStops([root], Distinct(blocks), cache);
  }

  /** What a walk visits after one more part has been sent. */
  lemma RoundReaches(root: Link, msg: seq<Block>, cache: Lru, reached: set<Link>, part: Link, w: Walk)
    requires cache.Valid() && w == WalkFrom([root], msg, cache) && w.Walked? && w.missing != []
    requires Reached(root, reached, part) && reached <= AtHand(msg, cache) && part in AtHand(msg, cache)
    ensures reached <= LinkSet(w.seen) <= AtHand(msg, cache) && part in LinkSet(w.seen)
    ensures Reached(root, LinkSet(w.seen), w.missing[0])
    ensures w.missing[0] !in AtHand(msg, cache)
    ensures forall l :: l in LinkSet(w.seen) ==> Descends(root, l)
  {
    hide LinkSet, WalkFrom, AtHand, Found, Reaches, Descends;
    ReachedAgain(root, reached, part, AtHand(msg, cache), part);
    RootAtHand(root, part, AtHand(msg, cache));
    var open, m, found := AtHand(msg, cache), w.missing[0], LinkSet(w.seen);
    SeenIsFound(root, msg, cache, w);
    WalkFinds([root], msg, cache, m);
    forall l | l in reached || l == part
      ensures l in found
    {
      ReachedAgain(root, reached, part, open, l);
    }
    forall l | l in found
      ensures Descends(root, l) && l in open && Found([root], l, found)
    {
      assert Found([root], l, open);
      FoundDescends(root, l, open);
      FoundWithin(root, l, open, found);
    }
    FirstAsked(root, m, found, open);
  }

  lemma RootAtHand(root: Link, l: Link, open: set<Link>)
    requires Found([root], l, open)
    ensures root in open
  {
  }

  lemma FirstAsked(root: Link, m: Link, found: set<Link>, open: set<Link>)
    requires Wanted([root], m, open) && Finds(root, found, open) && root in open
    ensures Asks(found, m) && root in found
  {
    ReachesSelf(root, open);
    assert root in [root] && Found([root], root, open);
    var q :| Found([root], q, open) && m in ProofsOf(q);
    assert q in found;
  }

  /** What a request leaves behind: everything visited, and little else, is cached. */
  lemma RoundCaches(root: Link, c: Client, cache: Lru, all: set<Link>, reached: set<Link>, blocks: seq<Block>, w: Walk)
    requires Ready(root, c, cache, all, reached) && Message(c.part) == Some(blocks)
    requires Extract(root, blocks, cache).0.MissingProofs?
    requires w == WalkFrom([root], Distinct(blocks), cache)
    ensures var cache' := Extract(root, blocks, cache).1;
      && cache'.Valid() && cache'.capacity == cache.capacity
      && LinkSet(w.seen) <= cache'.Keys() <= cache.Keys() + LinkSet(w.seen)
    ensures LinkSet(w.seen) <= all
    ensures reached <= LinkSet(w.seen) <= AtHand(blocks, cache) && c.part.Link() in LinkSet(w.seen)
    ensures w.Walked? && w.missing != [] && w.missing[0] in all && w.missing[0] !in LinkSet(w.seen)
    ensures Reached(root, LinkSet(w.seen), w.missing[0])
  {
    var msg := Distinct(blocks);
    RoundWalks(root, c, cache, all, reached, blocks);
    RoundReaches(root, msg, cache, reached, c.part.Link(), w);
    var q :| q in LinkSet(w.seen) && w.missing[0] in ProofsOf(q);
    DescendsOn(root, q, w.missing[0]);
    SubsetSize(LinkSet(w.seen), all - {w.missing[0]});
    SeenSurvive(root, blocks, cache, w);
    AddedIsSeen([root], msg, cache, w);
  }

  /** If proofs are still missing, the client holds the first of them, and sending it
      keeps the session's invariant. */
  lemma RoundStep(root: Link, c: Client, cache: Lru, all: set<Link>, reached: set<Link>, blocks: seq<Block>, w: Walk)
      returns (c': Client)
    requires Ready(root, c, cache, all, reached) && Message(c.part) == Some(blocks)
    requires Extract(root, blocks, cache).0.MissingProofs?
    requires w == WalkFrom([root], Distinct(blocks), cache)
    ensures Next(c, Extract(root, blocks, cache).0.proofs) == Some(c')
    ensures Ready(root, c', Extract(root, blocks, cache).1, all, LinkSet(w.seen))
  {
    RoundCaches(root, c, cache, all, reached, blocks, w);
    c' := HeldNext(c, all, reached, LinkSet(w.seen), w.missing);
  }

  lemma HeldNext(c: Client, all: set<Link>, reached: set<Link>, reached': set<Link>, missing: seq<Link>)
      returns (c': Client)
    requires WellFormed(c) && c.parts.Keys <= all && Unsent(c, all, reached)
    requires reached <= reached' && c.part.Link() in reached'
    requires missing != [] && missing[0] in all && missing[0] !in reached'
    ensures Next(c, missing) == Some(c') && WellFormed(c')
    ensures c'.part.Link() == missing[0] && c'.parts.Keys <= all
    ensures Unsent(c', all, reached')
  {
    assert missing[0] in c.parts;
    c' := Next(c, missing).value;
    NextConserves(c, missing, c');
  }

  /** A session that is ready ends with the invocation extracted. A cache that holds
      nothing of it beyond what was sent needs every part. */
  lemma {:induction false} SessionEnds(root: Link, c: Client, cache: Lru, all: set<Link>, reached: set<Link>)
    requires Ready(root, c, cache, all, reached)
    ensures var (rounds, end) := Session(root, c, cache);
      && end.Extracted? && rounds <= |c.parts| + 1
      && end.invocation.Link() == root
      && (forall l :: Descends(root, l) ==> l.content in end.invocation.Blocks())
      && (Cold(c, cache, all, reached) ==> rounds == |c.parts| + 1)
    decreases |c.parts|
  {
    forall l | Descends(c.part.Link(), l)
      ensures l.content.Token?
    {
      DescendsThrough(root, c.part.Link(), l);
    }
    MessageHas(c.part);
    var blocks := Message(c.part).value;
    RoundWalks(root, c, cache, all, reached, blocks);
    ExtractIffComplete(root, blocks, cache);
    if Cold(c, cache, all, reached) {
      ColdIncomplete(root, c, cache, all, reached, blocks);
    }
    if Extract(root, blocks, cache).0.MissingProofs? {
      var w := WalkFrom([root], Distinct(blocks), cache);
      var c' := RoundStep(root, c, cache, all, reached, blocks, w);
      NextConserves(c, Extract(root, blocks, cache).0.proofs, c');
      if Cold(c, cache, all, reached) {
        StaysCold(root, c, c', cache, all, reached, blocks, w);
      }
      SessionEnds(root, c', Extract(root, blocks, cache).1, all, LinkSet(w.seen));
    } else {
      NeverFails(root, blocks, cache);
    }
  }

  /** The cache holds nothing below the root but what was reached, none of which is
      still to be sent, and the part in hand brings only itself. */
  ghost predicate Cold(c: Client, cache: Lru, all: set<Link>, reached: set<Link>) {
    && Single(c.part)
    && (forall l :: l in cache.Keys() && l in all ==> l in reached)
    && (forall l :: l in c.parts ==> l !in reached)
  }

  lemma NeverFails(root: Link, blocks: seq<Block>, cache: Lru)
    requires cache.Valid() && WalkFrom([root], Distinct(blocks), cache).Walked?
    ensures !Extract(root, blocks, cache).0.Failed?
  {
    var msg := Distinct(blocks);
    var w := WalkFrom([root], msg, cache);
    if w.missing == [] {
      WalkComplete(root, msg, cache);
      SeenExports(root, w.seen, msg);
      ReachesSelf(root, {});
      assert Descends(root, root);
    }
  }

  lemma ColdIncomplete(root: Link, c: Client, cache: Lru, all: set<Link>, reached: set<Link>, blocks: seq<Block>)
    requires Ready(root, c, cache, all, reached) && Cold(c, cache, all, reached) && Message(c.part) == Some(blocks)
    ensures c.parts.Keys != {} ==> !Complete(root, AtHand(blocks, cache))
  {
    MessageOfSingle(c.part);
    if l :| l in c.parts {
      assert Descends(root, l);
      assert l != c.part.Link() && l == Cid(l.content);
      assert l !in AtHand(blocks, cache);
    }
  }

  /** A cold round reaches nothing beyond what was reached before and the part sent. */
  lemma ColdReaches(c: Client, cache: Lru, all: set<Link>, reached: set<Link>, blocks: seq<Block>, seen: set<Link>)
    requires Cold(c, cache, all, reached) && Message(c.part) == Some(blocks)
    requires seen <= all && seen <= AtHand(blocks, cache)
    ensures seen <= reached + {c.part.Link()}
  {
    MessageOfSingle(c.part);
    forall l | l in seen
      ensures l in reached || l == c.part.Link()
    {
      assert l in AtHand(blocks, cache) && l == Cid(l.content);
    }
  }

  lemma StaysCold(root: Link, c: Client, c': Client, cache: Lru, all: set<Link>, reached: set<Link>,
          blocks: seq<Block>, w: Walk)
    requires Ready(root, c, cache, all, reached) && Cold(c, cache, all, reached) && Message(c.part) == Some(blocks)
    requires Extract(root, blocks, cache).0.MissingProofs?
    requires w == WalkFrom([root], Distinct(blocks), cache)
    requires Next(c, Extract(root, blocks, cache).0.proofs) == Some(c')
    ensures Cold(c', Extract(root, blocks, cache).1, all, LinkSet(w.seen))
  {
    RoundCaches(root, c, cache, all, reached, blocks, w);
    ColdReaches(c, cache, all, reached, blocks, LinkSet(w.seen));
    ColdAfter(c, c', cache, Extract(root, blocks, cache).1, all, reached, Extract(root, blocks, cache).0.proofs,
        LinkSet(w.seen));
  }

  lemma ColdAfter(c: Client, c': Client, cache: Lru, cache': Lru, all: set<Link>, reached: set<Link>,
          missing: seq<Link>, seen: set<Link>)
    requires WellFormed(c) && Cold(c, cache, all, reached) && Next(c, missing) == Some(c')
    requires reached <= seen <= reached + {c.part.Link()} && cache'.Keys() <= cache.Keys() + seen
    ensures Cold(c', cache', all, seen)
  {
    hide Lru.Keys;
    NextConserves(c, missing, c');
    assert c'.part == c.parts[missing[0]];
  }

  lemma AddedIsSeen(work: seq<Link>, msg: seq<Block>, cache: Lru, w: Walk)
    requires cache.Valid() && w == WalkFrom(work, msg, cache) && w.Walked?
    ensures LinkSet(w.added) <= LinkSet(w.seen)
  {
    forall l | l in LinkSet(w.added)
      ensures l in LinkSet(w.seen)
    {
      WalkFinds(work, msg, cache, l);
    }
  }

  /** Negotiation succeeds: with a cache that has room for as many delegations as there
      are distinct proofs, whatever it holds at first, the server extracts the whole
      invocation after at most one request more than that; and after exactly that many
      when the cache holds none of them. */
  lemma NegotiationSucceeds(invocation: Delegation, c: Client, cache: Lru)
    requires Start(invocation) == Some(c)
    requires cache.Valid() && |c.parts| <= cache.capacity
    ensures var (rounds, end) := Session(invocation.Link(), c, cache);
      && end.Extracted? && rounds <= |c.parts| + 1
      && end.invocation.Link() == invocation.Link()
      && (forall l :: Descends(invocation.Link(), l) ==> l.content in end.invocation.Blocks())
      && (invocation.attached == [] && cache.Keys() !! c.parts.Keys + {invocation.Link()} ==> rounds == |c.parts| + 1)
  {
    var root := invocation.Link();
    StartsWithAll(invocation, c);
    ReachesSelf(root, {});
    var all := c.parts.Keys + {root};
    assert forall l :: Descends(root, l) <==> l in all;
    assert |all| == |c.parts| + 1;
    assert Ready(root, c, cache, all, {});
    SessionEnds(root, c, cache, all, {});
  }

  /** The request that completes an invocation brings one delegation of it; the cache
      must hold all the others. */
  lemma LastRoundNeeds(root: Link, c: Client, cache: Lru, all: set<Link>)
    requires cache.Valid() && Single(c.part) && forall l :: l in all ==> Descends(root, l)
    requires Extract(root, [Token(c.part.ucan)], cache).0.Extracted?
    ensures |all| <= cache.capacity + 1
  {
    hide Extract;
    var blocks := [Token(c.part.ucan)];
    ExtractIffComplete(root, blocks, cache);
    forall l | l in all
      ensures l in cache.Keys() + {c.part.Link()}
    {
      assert l in AtHand(blocks, cache) && l == Cid(l.content);
    }
    SubsetSize(all, cache.Keys() + {c.part.Link()});
    LinkSetSize(cache.entries);
  }

  lemma {:induction false} SessionNeeds(root: Link, c: Client, cache: Lru, all: set<Link>)
    requires cache.Valid() && WellFormed(c) && Single(c.part) && forall l :: l in all ==> Descends(root, l)
    requires Session(root, c, cache).1.Extracted?
    ensures |all| <= cache.capacity + 1
    decreases |c.parts|
  {
    hide Extract;
    MessageOfSingle(c.part);
    var blocks := [Token(c.part.ucan)];
    var (outcome, cache') := Extract(root, blocks, cache);
    if outcome.MissingProofs? {
      var c' := Next(c, outcome.proofs).value;
      NextConserves(c, outcome.proofs, c');
      ExtractKeepsValid(root, blocks, cache);
      SessionNeeds(root, c', cache', all);
    } else {
      LastRoundNeeds(root, c, cache, all);
    }
  }

  /** That room is needed: without attachments a session ends with the invocation
      extracted if and only if the cache can hold as many delegations as there are
      distinct proofs, whatever it holds at first. */
  lemma NegotiatesIffRoom(invocation: Delegation, c: Client, cache: Lru)
    requires Start(invocation) == Some(c) && cache.Valid() && invocation.attached == []
    ensures Session(invocation.Link(), c, cache).1.Extracted? <==> |c.parts| <= cache.capacity
  {
    var root := invocation.Link();
    StartsWithAll(invocation, c);
    ReachesSelf(root, {});
    if Session(root, c, cache).1.Extracted? {
      var all := c.parts.Keys + {root};
      assert |all| == |c.parts| + 1;
      SessionNeeds(root, c, cache, all);
    }
    if |c.parts| <= cache.capacity {
      NegotiationSucceeds(invocation, c, cache);
    }
  }
}
