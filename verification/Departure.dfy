/** When an invocation can be taken apart at all, and sessions stated for every one that can. */
module Departure {
  import opened Graph
  import opened DelegationCache
  import opened Blockstore
  import opened Export
  import opened Extraction
  import opened Negotiation

  /** Everything below the worklist is a token, and is among `blocks`. */
  ghost predicate Held(work: seq<Link>, blocks: seq<Block>) {
    forall w, l :: w in work && Descends(w, l) ==> l.content.Token? && l.content in blocks
  }

  lemma HeldHead(work: seq<Link>, blocks: seq<Block>)
    requires work != []
    ensures Held(work, blocks) <==>
      work[0].content.Token? && work[0].content in blocks && Held(work[1..] + ProofsOf(work[0]), blocks)
  {
    var rest := work[1..] + ProofsOf(work[0]);
    if Held(work, blocks) {
      ReachesSelf(work[0], {});
      assert Descends(work[0], work[0]);
      forall w, l | w in rest && Descends(w, l)
        ensures l.content.Token? && l.content in blocks
      {
        BelowHead(work, l);
      }
    }
    if work[0].content.Token? && work[0].content in blocks && Held(rest, blocks) {
      forall w, l | w in work && Descends(w, l)
        ensures l.content.Token? && l.content in blocks
      {
        BelowHead(work, l);
      }
    }
  }

  lemma {:induction false} PartsIff(work: seq<Link>, blocks: seq<Block>, parts: map<Link, Delegation>)
    ensures BuildParts(work, blocks, parts).Some? <==> Held(work, blocks)
    decreases Weights(work)
  {
    hide Held;
    if work == [] {
      NothingToHold(blocks);
    } else {
      VisitLightens(work);
      HeldHead(work, blocks);
      if View(work[0], blocks).Some? {
        var d := View(work[0], blocks).value;
        OmittedSingle(d);
        var part := OmitProofs(d).value;
        PartsIff(work[1..] + ProofsOf(work[0]), blocks, parts[part.Link() := part]);
      }
    }
  }

  lemma NothingToHold(blocks: seq<Block>)
    ensures Held([], blocks)
  {
  }

  lemma {:induction false} PartsGrow(work: seq<Link>, blocks: seq<Block>, parts: map<Link, Delegation>)
    requires BuildParts(work, blocks, parts).Some?
    ensures work != [] || parts != map[] ==> BuildParts(work, blocks, parts).value != map[]
    decreases Weights(work)
  {
    if work != [] {
      VisitLightens(work);
      var part := OmitProofs(View(work[0], blocks).value).value;
      assert part.Link() in parts[part.Link() := part];
      PartsGrow(work[1..] + ProofsOf(work[0]), blocks, parts[part.Link() := part]);
    }
  }

  /** `l` is below the invocation. */
  ghost predicate Below(invocation: Delegation, l: Link) {
    Descends(invocation.Link(), l) && l != invocation.Link()
  }

  lemma BelowProofs(invocation: Delegation, l: Link)
    ensures Below(invocation, l) <==> exists p :: p in invocation.ucan.proofs && Descends(p, l)
  {
    var root := invocation.Link();
    BelowHead([root], l);
    assert [root][1..] + ProofsOf(root) == invocation.ucan.proofs;
    assert forall w :: w in [root] <==> w == root;
    if p :| p in invocation.ucan.proofs && Descends(p, l) {
      RankBelowTop(invocation.ucan.proofs, p);
      DescendsRank(p, l);
    }
  }

  /** `l` decodes to a token, and is attached or reached through the invocation's own blocks. */
  ghost predicate Carried(invocation: Delegation, l: Link) {
    && l.content.Token?
    && (l.content in invocation.attached || Reaches(invocation.Link(), l, Open(invocation.blocks, [])))
  }

  /** It has proofs, and carries everything below it. */
  ghost predicate Sendable(invocation: Delegation) {
    invocation.ucan.proofs != [] && forall l :: Below(invocation, l) ==> Carried(invocation, l)
  }

  /** Exactly such invocations can be taken apart. */
  lemma StartIff(invocation: Delegation)
    ensures Start(invocation).Some? <==> Sendable(invocation)
  {
    hide Below, BuildParts, OmitProofs, ExportProofs;
    var proofs := invocation.ucan.proofs;
    OmittedSingle(invocation);
    forall l
      ensures Below(invocation, l) <==> exists p :: p in proofs && Descends(p, l)
    {
      BelowProofs(invocation, l);
    }
    if forall l :: Below(invocation, l) ==> l.content.Token? {
      ProofsExport(proofs, invocation.blocks, []);
    }
    if Exported(invocation, []).Some? {
      var s := Exported(invocation, []).value;
      HeldExported(invocation, s);
      PartsIff(proofs, Distinct(s), map[]);
      if BuildParts(proofs, Distinct(s), map[]).Some? {
        NoParts(proofs, Distinct(s));
      }
    }
  }

  lemma HeldExported(invocation: Delegation, s: seq<Block>)
    requires Exported(invocation, []) == Some(s)
    ensures Held(invocation.ucan.proofs, Distinct(s)) <==>
      forall l :: Below(invocation, l) ==> Carried(invocation, l)
  {
    hide Distinct, Exported, Below, Carried;
    if forall l :: Below(invocation, l) ==> Carried(invocation, l) {
      forall w, l | w in invocation.ucan.proofs && Descends(w, l)
        ensures l.content.Token? && l.content in Distinct(s)
      {
        BelowProofs(invocation, l);
        CarriedExported(invocation, s, l);
      }
    }
    if Held(invocation.ucan.proofs, Distinct(s)) {
      forall l | Below(invocation, l)
        ensures Carried(invocation, l)
      {
        BelowProofs(invocation, l);
        CarriedExported(invocation, s, l);
      }
    }
  }

  lemma CarriedExported(invocation: Delegation, s: seq<Block>, l: Link)
    requires Exported(invocation, []) == Some(s) && Below(invocation, l)
    ensures Carried(invocation, l) <==> l.content.Token? && l.content in Distinct(s)
  {
    hide Distinct, Exported;
    assert l == Cid(l.content);
    ExportedCovers(invocation, [], l.content);
    DistinctHas(s, l.content);
  }

  lemma NoParts(proofs: seq<Link>, blocks: seq<Block>)
    requires BuildParts(proofs, blocks, map[]).Some?
    ensures BuildParts(proofs, blocks, map[]).value == map[] <==> proofs == []
  {
    PartsGrow(proofs, blocks, map[]);
  }

  /** Every proof below the invocation is embedded in it. */
  ghost predicate Embedded(invocation: Delegation) {
    forall l :: Below(invocation, l) ==> l.content.Token? && l.content in invocation.blocks
  }

  /** Without attachments, exactly when it has proofs and all of them are embedded. */
  lemma StartIffEmbedded(invocation: Delegation)
    requires invocation.attached == []
    ensures Start(invocation).Some? <==> invocation.ucan.proofs != [] && Embedded(invocation)
  {
    StartIff(invocation);
    var root, open := invocation.Link(), Open(invocation.blocks, []);
    forall l | Below(invocation, l)
      ensures Reaches(root, l, open) ==> l.content in invocation.blocks
      ensures Embedded(invocation) ==> Reaches(root, l, open)
    {
      if Reaches(root, l, open) {
        LastOpen(root, l, open);
      }
      if Embedded(invocation) {
        EmbeddedReached(invocation, l);
      }
    }
  }

  lemma LastOpen(from: Link, l: Link, open: set<Link>)
    requires Reaches(from, l, open) && l != from
    ensures l in open
  {
    var path :| Path(from, path, l, open);
    assert Follows(path[|path| - 2], path[|path| - 1], open);
  }

  lemma EmbeddedReached(invocation: Delegation, l: Link)
    requires Embedded(invocation) && Below(invocation, l)
    ensures Reaches(invocation.Link(), l, Open(invocation.blocks, []))
  {
    var root, open := invocation.Link(), Open(invocation.blocks, []);
    var any :| Reaches(root, l, any);
    var path :| Path(root, path, l, any);
    ReachesSelf(root, open);
    ReachesSelf(root, {});
    for i := 1 to |path|
      invariant Descends(root, path[i - 1]) && Reaches(root, path[i - 1], open)
    {
      assert Follows(path[i - 1], path[i], any);
      DescendsOn(root, path[i - 1], path[i]);
      NotAbove(root, path[i - 1], path[i]);
      var next: Link := path[i];
      assert Below(invocation, next) && next == Cid(next.content);
      ReachesOn(root, path[i - 1], path[i], open);
    }
  }

  lemma NotAbove(root: Link, from: Link, to: Link)
    requires Descends(root, from) && to in ProofsOf(from)
    ensures to != root
  {
    DescendsRank(root, from);
    RankBelowTop(ProofsOf(from), to);
  }

  // ---- Sessions of every invocation that can be sent ----

  /** `all` is what is below the invocation. */
  ghost predicate IsBelow(invocation: Delegation, all: set<Link>) {
    forall l :: l in all <==> Below(invocation, l)
  }

  lemma PartsAreBelow(invocation: Delegation, c: Client, all: set<Link>)
    requires Start(invocation) == Some(c) && IsBelow(invocation, all)
    ensures c.parts.Keys == all && |c.parts| == |all|
  {
    StartsWithAll(invocation, c);
    assert |c.parts| == |c.parts.Keys|;
  }

  /** Every invocation that carries its proofs gets through to a server whose cache has
      room for them, in at most one request more than there are. Without attachments it
      takes exactly that many if nothing of it is cached, and with less room it never does. */
  lemma EveryInvocationNegotiates(invocation: Delegation, all: set<Link>, cache: Lru) returns (c: Client)
    requires Sendable(invocation)
    requires IsBelow(invocation, all) && cache.Valid()
    ensures Start(invocation) == Some(c)
    ensures var (rounds, end) := Session(invocation.Link(), c, cache);
      && (|all| <= cache.capacity ==>
          && end.Extracted? && rounds <= |all| + 1 && end.invocation.Link() == invocation.Link()
          && forall l :: Descends(invocation.Link(), l) ==> l.content in end.invocation.Blocks())
      && (invocation.attached == [] ==>
          && (end.Extracted? ==> |all| <= cache.capacity)
          && (end.Extracted? && cache.Keys() !! all + {invocation.Link()} ==> rounds == |all| + 1))
  {
    hide Session, Start, Sendable, IsBelow;
    StartIff(invocation);
    c := Start(invocation).value;
    PartsAreBelow(invocation, c, all);
    if invocation.attached == [] {
      NegotiatesIffRoom(invocation, c, cache);
    }
    if |all| <= cache.capacity {
      NegotiationSucceeds(invocation, c, cache);
    }
  }

  // ---- What is sent in answer to what ----

  /** The client can go on: it was asked for something that it holds and has not sent. */
  ghost predicate CanGoOn(c: Client, sent: seq<Link>, response: Response) {
    && response.NotExtended? && response.missing != []
    && response.missing[0] in c.parts && response.missing[0] !in sent
  }

  /** After the invocation each delegation sent is the first that the answer before it
      asks for, and the client stops only when it has no answer or cannot go on. */
  lemma {:induction false} SendsWhatIsAsked(c: Client, responses: seq<Response>)
    requires WellFormed(c)
    ensures var sent := Sent(c, responses); var n := |sent| - 1;
      && sent != [] && sent[0] == c.part.Link() && n <= |responses|
      && (forall i :: 0 <= i < n ==> CanGoOn(c, sent[..i + 1], responses[i]) && sent[i + 1] == responses[i].missing[0])
      && (n < |responses| ==> !CanGoOn(c, sent, responses[n]))
    decreases |c.parts|
  {
    hide WellFormed;
    var sent := Sent(c, responses);
    if responses != [] && responses[0].NotExtended? && Next(c, responses[0].missing).Some? {
      var c' := Next(c, responses[0].missing).value;
      NextConserves(c, responses[0].missing, c');
      SendsWhatIsAsked(c', responses[1..]);
      var later := Sent(c', responses[1..]);
      assert sent == [c.part.Link()] + later;
      NotHeld(c);
      forall i | 0 <= i <= |later| - 1 && i + 1 < |responses|
        ensures CanGoOn(c, sent[..i + 2], responses[i + 1]) <==> CanGoOn(c', later[..i + 1], responses[1..][i])
      {
        assert sent[..i + 2] == [c.part.Link()] + later[..i + 1];
        assert later[..i + 1][0] == c'.part.Link();
        assert forall l :: l in c.parts <==> l in c'.parts || l == c'.part.Link();
      }
      assert later[..|later|] == later && sent[..|sent|] == sent;
      forall i | 0 <= i < |sent| - 1
        ensures CanGoOn(c, sent[..i + 1], responses[i]) && sent[i + 1] == responses[i].missing[0]
      {
        if i == 0 {
          assert sent[..1] == [c.part.Link()];
        } else {
          assert responses[1..][i - 1] == responses[i] && sent[i + 1] == later[i];
        }
      }
    } else {
      assert sent == [c.part.Link()];
    }
  }

  lemma NotHeld(c: Client)
    requires WellFormed(c)
    ensures c.part.Link() !in c.parts
  {
  }

  /** What a server with this cache answers to the client, request by request. */
  function Answers(root: Link, c: Client, cache: Lru): seq<Response>
    decreases |c.parts|
  {
    match Message(c.part)
    case None => []
    case Some(blocks) =>
      var (outcome, cache') := Extract(root, blocks, cache);
      match outcome
      case Extracted(_) => [Accepted]
      case Failed => [Refused]
      case MissingProofs(missing) =>
        [NotExtended(missing)] +
        match Next(c, missing)
        case None => []
        case Some(c') =>
          assert c'.parts.Keys == c.parts.Keys - {missing[0]};
          assert |c'.parts.Keys| < |c.parts.Keys|;
          Answers(root, c', cache')
  }

  /** Given those answers the client sends one delegation a round, and ends as the session does. */
  lemma {:induction false} SessionIsRun(root: Link, c: Client, cache: Lru)
    requires WellFormed(c) && Single(c.part)
    ensures var (rounds, end) := Session(root, c, cache); var answers := Answers(root, c, cache);
      && |Sent(c, answers)| == |answers| == rounds
      && (end.Extracted? <==> answers != [] && answers[|answers| - 1] == Accepted)
    decreases |c.parts|
  {
    hide Extract;
    MessageOfSingle(c.part);
    var blocks := [Token(c.part.ucan)];
    var (outcome, cache') := Extract(root, blocks, cache);
    if outcome.MissingProofs? && Next(c, outcome.proofs).Some? {
      var c' := Next(c, outcome.proofs).value;
      NextConserves(c, outcome.proofs, c');
      SessionIsRun(root, c', cache');
      assert Answers(root, c, cache) == [NotExtended(outcome.proofs)] + Answers(root, c', cache');
      assert Answers(root, c, cache)[1..] == Answers(root, c', cache');
    }
  }
}
