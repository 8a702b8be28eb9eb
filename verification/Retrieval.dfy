/** The loops of the partitioned retrieval protocol: the server's walk
    (server/retrieval/server.go) and the client's requests (client/retrieval/connection.go). */
module Retrieval {
  import opened Graph
  import opened DelegationCache
  import opened Blockstore
  import opened Export
  import opened Extraction
  import opened Negotiation

  // ---- The server ----

  /** A walk in progress: what has been found so far, then the rest. */
  ghost function Continued(seen: seq<Delegation>, added: seq<Delegation>, missing: seq<Link>, rest: Walk): Walk {
    match rest
    case Undecodable(_, _) => rest
    case Walked(s, a, m, c) => Walked(seen + s, added + a, missing + m, c)
  }

  lemma ContinueNew(seen: seq<Delegation>, added: seq<Delegation>, missing: seq<Link>, work: seq<Link>,
          msg: seq<Block>, cache: Lru, d: Delegation)
    requires work != [] && work[0] == d.Link() && work[0].content in msg && d.blocks == msg && d.attached == []
    ensures Continued(seen, added, missing, WalkFrom(work, msg, cache))
         == Continued(seen + [d], added + [d], missing, WalkFrom(work[1..] + d.ucan.proofs, msg, cache))
  {
    var rest := WalkFrom(work[1..] + ProofsOf(work[0]), msg, cache);
    assert WalkFrom(work, msg, cache) == Visited(d, true, rest);
    if rest.Walked? {
      assert seen + ([d] + rest.seen) == (seen + [d]) + rest.seen;
      assert added + ([d] + rest.added) == (added + [d]) + rest.added;
    }
  }

  lemma ContinueCached(seen: seq<Delegation>, added: seq<Delegation>, missing: seq<Link>, work: seq<Link>,
          msg: seq<Block>, cache: Lru, d: Delegation)
    requires work != [] && work[0].content !in msg && cache.Get(work[0]) == Some(d)
    ensures Continued(seen, added, missing, WalkFrom(work, msg, cache))
         == Continued(seen + [d], added, missing, WalkFrom(work[1..] + d.ucan.proofs, msg, cache.Touch(work[0])))
  {
    assert d.Link() == work[0];
    var rest := WalkFrom(work[1..] + ProofsOf(work[0]), msg, cache.Touch(work[0]));
    assert WalkFrom(work, msg, cache) == Visited(d, false, rest);
    if rest.Walked? {
      assert seen + ([d] + rest.seen) == (seen + [d]) + rest.seen;
    }
  }

  lemma ContinueMissing(seen: seq<Delegation>, added: seq<Delegation>, missing: seq<Link>, work: seq<Link>,
          msg: seq<Block>, cache: Lru)
    requires work != [] && work[0].content !in msg && cache.Get(work[0]).None?
    ensures Continued(seen, added, missing, WalkFrom(work, msg, cache))
         == Continued(seen, added, missing + [work[0]], WalkFrom(work[1..], msg, cache))
    ensures cache.Touch(work[0]) == cache
  {
    var rest := WalkFrom(work[1..], msg, cache);
    if rest.Walked? {
      assert missing + ([work[0]] + rest.missing) == (missing + [work[0]]) + rest.missing;
    }
  }

  class RetrievalServer {
    const cache: MemoryDelegationCache

    constructor (cache: MemoryDelegationCache)
      ensures this.cache == cache
    {
      this.cache := cache;
    }

    method ExtractInvocation(root: Link, blocks: seq<Block>) returns (r: Outcome)
      requires cache.Valid()
      modifies cache
      ensures cache.Valid()
      ensures (r, cache.data) == Extract(root, blocks, old(cache.data))
    {
      var bs := new BlockStore(blocks);
      var walk := WalkGraph(root, bs);
      if walk.Undecodable? {
        return Failed;
      }
      if walk.missing != [] {
        Remember(walk.added);
        return MissingProofs(walk.missing);
      }
      r := Assemble(root, walk.seen, bs);
    }

    /** Visits what can be reached through the message and the cache, first come first served. */
    method WalkGraph(root: Link, bs: BlockStore) returns (r: Walk)
      requires cache.Valid() && bs.Valid()
      modifies cache
      ensures cache.Valid() && cache.data == r.cache
      ensures r == WalkFrom([root], bs.Contents(), old(cache.data))
    {
      var msg := bs.Iterator();
      ghost var whole := WalkFrom([root], msg, cache.data);
      var dlgs, newdlgs, missing, work := [], [], [], [root];
      while work != []
        invariant cache.Valid()
        invariant whole == Continued(dlgs, newdlgs, missing, WalkFrom(work, msg, cache.data))
        decreases Weights(work)
      {
        VisitLightens(work);
        var l := work[0];
        var block := bs.Get(l);
        if block.Some? {
          if !block.value.Token? {
            return Undecodable(l, cache.data);
          }
          var dlg := Delegation(block.value.ucan, msg, []);
          ContinueNew(dlgs, newdlgs, missing, work, msg, cache.data, dlg);
          newdlgs := newdlgs + [dlg];
          dlgs := dlgs + [dlg];
          work := work[1..] + dlg.ucan.proofs;
        } else {
          ghost var held := cache.data;
          var cached := cache.Get(l);
          if cached.Some? {
            ContinueCached(dlgs, newdlgs, missing, work, msg, held, cached.value);
            dlgs := dlgs + [cached.value];
            work := work[1..] + cached.value.ucan.proofs;
          } else {
            ContinueMissing(dlgs, newdlgs, missing, work, msg, held);
            missing := missing + [l];
            work := work[1..];
          }
        }
      }
      r := Walked(dlgs, newdlgs, missing, cache.data);
    }

    /** Caches the delegations that came with the message, for the next request. */
    method Remember(ds: seq<Delegation>)
      requires cache.Valid()
      modifies cache
      ensures cache.Valid() && cache.data == AddAll(old(cache.data), ds)
    {
      ghost var before := cache.data;
      for i := 0 to |ds|
        invariant cache.Valid() && cache.data == AddAll(before, ds[..i])
      {
        assert ds[..i + 1][..i] == ds[..i];
        cache.Put(ds[i]);
      }
      assert ds[..|ds|] == ds;
    }

    /** Adds the delegations' own blocks to the message's and views the result. */
    method Assemble(root: Link, ds: seq<Delegation>, bs: BlockStore) returns (r: Outcome)
      requires bs.Valid()
      modifies bs
      ensures r == if ExportAll(ds).None? then Failed
        else Viewed(root, StoredAll(old(bs.Contents()), ExportAll(ds).value))
    {
      ghost var msg := bs.Contents();
      ghost var done := [];
      for i := 0 to |ds|
        invariant bs.Valid() && ExportAll(ds[..i]) == Some(done) && bs.Contents() == StoredAll(msg, done)
      {
        assert ds[..i + 1][..i] == ds[..i];
        var exported := Exported(ds[i], []);
        if exported.None? {
          ExportAllStops(ds, i);
          return Failed;
        }
        WriteInto(exported.value, bs);
        StoredAllConcat(msg, done, exported.value);
        done := done + exported.value;
      }
      assert ds[..|ds|] == ds;
      var block := bs.Get(root);
      var contents := bs.Iterator();
      r := if block.Some? && block.value.Token? then Extracted(Delegation(block.value.ucan, contents, [])) else Failed;
    }
  }

  ghost function Viewed(root: Link, blocks: seq<Block>): Outcome {
    match View(root, blocks)
    case None => Failed
    case Some(d) => Extracted(d)
  }

  lemma {:induction false} ExportAllStops(ds: seq<Delegation>, i: nat)
    requires i < |ds| && Exported(ds[i], []).None?
    ensures ExportAll(ds) == None
    decreases |ds|
  {
    if i < |ds| - 1 {
      ExportAllStops(ds[..|ds| - 1], i);
    }
  }

  // ---- The client ----

  /** Takes an invocation apart: one part for every delegation below it. */
  method PrepareParts(invocation: Delegation) returns (c: Option<Client>)
    ensures c == Start(invocation)
  {
    var exported := Exported(invocation, []);
    if exported.None? {
      return None;
    }
    var br := new BlockStore(exported.value);
    var blocks := br.Iterator();
    var part := OmitProofs(invocation);
    if part.None? {
      return None;
    }
    var parts: map<Link, Delegation> := map[];
    var prfs := invocation.ucan.proofs;
    ghost var whole := BuildParts(prfs, blocks, parts);
    while prfs != []
      invariant whole == BuildParts(prfs, blocks, parts)
      decreases Weights(prfs)
    {
      VisitLightens(prfs);
      var root := prfs[0];
      var prf := View(root, blocks);
      if prf.None? {
        return None;
      }
      var p := OmitProofs(prf.value);
      if p.None? {
        return None;
      }
      prfs := prfs[1..] + prf.value.ucan.proofs;
      parts := parts[p.value.Link() := p.value];
    }
    c := if parts == map[] then None else Some(Client(part.value, parts));
  }

  /** Sends the parts a server asks for, one at a time, for as long as it keeps giving
      these answers; returns the links sent, in order, and whether it was satisfied. */
  method SendPartialInvocations(invocation: Delegation, responses: seq<Response>) returns (sent: seq<Link>, ok: bool)
    ensures Start(invocation).None? ==> sent == [] && !ok
    ensures Start(invocation).Some? ==> sent == Sent(Start(invocation).value, responses)
    ensures ok <==> 0 < |sent| <= |responses| && responses[|sent| - 1] == Accepted
  {
    hide Sent, Start;
    var start := PrepareParts(invocation);
    sent, ok := [], false;
    if start.None? {
      return;
    }
    var part, parts := start.value.part, start.value.parts;
    var k := 0;
    ghost var whole := Sent(start.value, responses);
    assert responses[0..] == responses;
    while true
      invariant k == |sent| <= |responses|
      invariant whole == sent + Sent(Client(part, parts), responses[k..])
      decreases |parts|
    {
      ghost var before := sent;
      sent := sent + [part.Link()];
      if k == |responses| || !responses[k].NotExtended? {
        SentLast(Client(part, parts), responses[k..]);
        ok := k < |responses| && responses[k] == Accepted;
        return;
      }
      var missing := responses[k].missing;
      SentStep(Client(part, parts), responses, k);
      if missing == [] || missing[0] !in parts {
        return;
      }
      part, parts := parts[missing[0]], parts - {missing[0]};
      k := k + 1;
      AppendOne(before, sent[k - 1], Sent(Client(part, parts), responses[k..]));
    }
  }

  lemma AppendOne(a: seq<Link>, l: Link, b: seq<Link>)
    ensures a + ([l] + b) == (a + [l]) + b
  {
  }

  lemma SentLast(c: Client, responses: seq<Response>)
    requires responses == [] || !responses[0].NotExtended?
    ensures Sent(c, responses) == [c.part.Link()]
  {
  }

  /** One answer: nothing more is sent, or the part asked for and then the rest. */
  lemma SentStep(c: Client, responses: seq<Response>, k: nat)
    requires k < |responses| && responses[k].NotExtended?
    ensures var missing := responses[k].missing;
      if missing == [] || missing[0] !in c.parts then Sent(c, responses[k..]) == [c.part.Link()]
      else var c' := Client(c.parts[missing[0]], c.parts - {missing[0]});
        Sent(c, responses[k..]) == [c.part.Link()] + Sent(c', responses[k + 1..]) && |c'.parts| < |c.parts|
  {
    var missing := responses[k].missing;
    assert responses[k..][0] == responses[k] && responses[k..][1..] == responses[k + 1..];
    if missing != [] && missing[0] in c.parts {
      assert (c.parts - {missing[0]}).Keys == c.parts.Keys - {missing[0]};
      assert |(c.parts - {missing[0]}).Keys| < |c.parts.Keys|;
    }
  }
}
