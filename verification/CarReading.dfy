/** What reading an archive yields for any bytes at all, whoever wrote them: the leading
    frames that are intact, and whether there was anything else. */
module CarReading {
  import opened Graph
  import opened Varint
  import opened Car

  /** A frame holds the block, its identifier ends where the reader finds that it does,
      and its data match the identifier. */
  ghost predicate Intact(b: CarBlock, codec: Codec) {
    && |b.cid| + |b.data| < LIMIT
    && codec.cidEnd(b.cid + b.data) == Some(|b.cid|)
    && codec.matches(b.cid, b.data)
  }

  ghost predicate AllIntact(blocks: seq<CarBlock>, codec: Codec) {
    forall b :: b in blocks ==> Intact(b, codec)
  }

  /** The bytes begin with the frame of an intact block. */
  ghost predicate StartsIntact(bs: seq<Byte>, codec: Codec) {
    exists b, rest :: Intact(b, codec) && bs == Frame(Payload(b)) + rest
  }

  // ---- Frames ----

  /** A frame is read exactly where one stands. */
  lemma FrameReadIff(bs: seq<Byte>, payload: seq<Byte>, end: nat)
    ensures ReadFrame(bs) == Some((payload, end)) <==>
      |payload| < LIMIT && end == |Frame(payload)| <= |bs| && bs[..end] == Frame(payload)
  {
    if ReadFrame(bs) == Some((payload, end)) {
      DecodesCanonically(bs);
      ReadIsEncoded(bs, 0);
      var (length, size) := FromUvarint(bs).value;
      PowerFits(size);
      assert bs[..end] == bs[..size] + bs[size..end];
    }
    if |payload| < LIMIT && end == |Frame(payload)| <= |bs| && bs[..end] == Frame(payload) {
      FrameReadsBack(payload, bs[end..]);
      assert bs == Frame(payload) + bs[end..];
    }
  }

  // ---- One block ----

  lemma IntactReads(b: CarBlock, rest: seq<Byte>, offset: nat, codec: Codec)
    requires Intact(b, codec)
    ensures var frame := Frame(Payload(b));
      ReadBlock(frame + rest, offset, codec)
        == Block(b, offset + |frame| - |b.data|, |b.data|, |frame|)
  {
    FrameReadsBack(Payload(b), rest);
    assert Payload(b)[..|b.cid|] == b.cid && Payload(b)[|b.cid|..] == b.data;
    assert Frame(Payload(b)) + rest != [];
  }

  lemma ReadIsIntact(bs: seq<Byte>, offset: nat, codec: Codec)
    requires ReadBlock(bs, offset, codec).Block?
    ensures var r := ReadBlock(bs, offset, codec); var frame := Frame(Payload(r.block));
      && Intact(r.block, codec) && r.end == |frame| && bs == frame + bs[r.end..]
      && r.offset == offset + |frame| - |r.block.data| && r.length == |r.block.data|
  {
    var (payload, end) := ReadFrame(bs).value;
    FrameReadIff(bs, payload, end);
    var b := ReadBlock(bs, offset, codec).block;
    assert b.cid + b.data == payload;
    assert bs == bs[..end] + bs[end..];
  }

  /** A block is read exactly when the bytes begin with the frame of an intact one, and
      the end is clean exactly when there are none. */
  lemma BlockReadIff(bs: seq<Byte>, offset: nat, codec: Codec)
    ensures ReadBlock(bs, offset, codec).Block? <==> StartsIntact(bs, codec)
    ensures ReadBlock(bs, offset, codec).Eof? <==> bs == []
  {
    hide Intact;
    if ReadBlock(bs, offset, codec).Block? {
      ReadIsIntact(bs, offset, codec);
    }
    if b, rest :| Intact(b, codec) && bs == Frame(Payload(b)) + rest {
      IntactReads(b, rest, offset, codec);
    }
  }

  // ---- The whole stream ----

  function BlocksOf(located: seq<Located>): (r: seq<CarBlock>)
    ensures |r| == |located| && forall i :: 0 <= i < |r| ==> r[i] == located[i].block
  {
    seq(|located|, i requires 0 <= i < |located| => located[i].block)
  }

  lemma BlocksOfCons(l: Located, later: seq<Located>)
    ensures BlocksOf([l] + later) == [l.block] + BlocksOf(later)
  {
  }

  lemma FramesCons(b: CarBlock, blocks: seq<CarBlock>)
    ensures Frames([b] + blocks) == Frame(Payload(b)) + Frames(blocks)
  {
    assert ([b] + blocks)[1..] == blocks;
  }

  /** Whatever the bytes, the blocks read are intact and located in them, they are the
      leading frames, and what follows does not begin with another. The reading is ok
      exactly when nothing follows. */
  lemma {:induction false} ReadsLeadingFrames(bs: seq<Byte>, offset: nat, codec: Codec) returns (rest: seq<Byte>)
    ensures var r := ReadAll(bs, offset, codec);
      && AllIntact(BlocksOf(r.blocks), codec) && Locates(bs, offset, r.blocks, BlocksOf(r.blocks))
      && bs == Frames(BlocksOf(r.blocks)) + rest && !StartsIntact(rest, codec)
      && (r.ok <==> rest == [])
    decreases |bs|
  {
    hide ReadBlock, Intact, StartsIntact, Locates, LocatedAt;
    BlockReadIff(bs, offset, codec);
    var next := ReadBlock(bs, offset, codec);
    match next
    case Eof => rest := bs; NothingLocated(bs, offset);
    case Bad => rest := bs; NothingLocated(bs, offset);
    case Block(b, at, length, end) =>
      ReadIsIntact(bs, offset, codec);
      ReadOne(bs, offset, codec, next);
      rest := ReadsLeadingFrames(bs[end..], at + length, codec);
      OneMore(bs, offset, codec, next, ReadAll(bs[end..], at + length, codec), rest);
  }

  lemma NothingLocated(bs: seq<Byte>, offset: nat)
    ensures Locates(bs, offset, [], BlocksOf([])) && bs == Frames([]) + bs
  {
  }

  lemma OneMore(bs: seq<Byte>, offset: nat, codec: Codec, next: Next, later: Reading, rest: seq<Byte>)
    requires next.Block? && next.end <= |bs| && bs == Frame(Payload(next.block)) + bs[next.end..]
    requires next.end == |Frame(Payload(next.block))| && next.length == |next.block.data|
    requires next.offset == offset + next.end - next.length
    requires Intact(next.block, codec) && AllIntact(BlocksOf(later.blocks), codec)
    requires Locates(bs[next.end..], next.offset + next.length, later.blocks, BlocksOf(later.blocks))
    requires bs[next.end..] == Frames(BlocksOf(later.blocks)) + rest
    ensures var all := [Located(next.block, next.offset, next.length)] + later.blocks;
      && AllIntact(BlocksOf(all), codec) && Locates(bs, offset, all, BlocksOf(all))
      && bs == Frames(BlocksOf(all)) + rest
  {
    hide Intact, AllIntact, Locates, Frames, Frame, Payload, BlocksOf;
    var b, blocks := next.block, BlocksOf(later.blocks);
    BlocksOfCons(Located(b, next.offset, next.length), later.blocks);
    IntactCons(b, blocks, codec);
    FramesMore(bs, b, bs[next.end..], blocks, rest);
    LocatesMore(bs, offset, next, later.blocks, blocks);
  }

  lemma IntactCons(b: CarBlock, blocks: seq<CarBlock>, codec: Codec)
    requires Intact(b, codec) && AllIntact(blocks, codec)
    ensures AllIntact([b] + blocks, codec)
  {
    hide Intact;
  }

  lemma FramesMore(bs: seq<Byte>, b: CarBlock, tail: seq<Byte>, blocks: seq<CarBlock>, rest: seq<Byte>)
    requires bs == Frame(Payload(b)) + tail && tail == Frames(blocks) + rest
    ensures bs == Frames([b] + blocks) + rest
  {
    hide Frame, Payload, Frames;
    FramesCons(b, blocks);
    assert Frame(Payload(b)) + (Frames(blocks) + rest) == (Frame(Payload(b)) + Frames(blocks)) + rest;
  }

  lemma LocatesMore(bs: seq<Byte>, offset: nat, next: Next, later: seq<Located>, blocks: seq<CarBlock>)
    requires next.Block? && next.end <= |bs| && bs == Frame(Payload(next.block)) + bs[next.end..]
    requires next.end == |Frame(Payload(next.block))| && next.length == |next.block.data|
    requires next.offset == offset + next.end - next.length
    requires Locates(bs[next.end..], next.offset + next.length, later, blocks)
    ensures Locates(bs, offset, [Located(next.block, next.offset, next.length)] + later, [next.block] + blocks)
  {
    hide Locates, LocatedAt, Frame, Payload;
    var b, tail := next.block, bs[next.end..];
    FirstLocated(b, tail, offset);
    assert ([b] + blocks)[1..] == blocks;
    LocateMore(Frame(Payload(b)), tail, offset, Located(b, next.offset, next.length), later, [b] + blocks);
  }

  /** And no other reading does: leading intact frames that are not followed by one more
      are what is read. */
  lemma {:induction false} LeadingFramesRead(blocks: seq<CarBlock>, rest: seq<Byte>, offset: nat, codec: Codec)
    requires AllIntact(blocks, codec) && !StartsIntact(rest, codec)
    ensures var r := ReadAll(Frames(blocks) + rest, offset, codec);
      BlocksOf(r.blocks) == blocks && (r.ok <==> rest == [])
    decreases |blocks|
  {
    hide ReadBlock, Intact, StartsIntact, Frame, Payload;
    if blocks == [] {
      assert Frames(blocks) + rest == rest;
      BlockReadIff(rest, offset, codec);
    } else {
      var b, frame, tail := blocks[0], Frame(Payload(blocks[0])), Frames(blocks[1..]) + rest;
      assert Frames(blocks) + rest == frame + tail;
      assert b in blocks;
      IntactReads(b, tail, offset, codec);
      var l := Located(b, offset + |frame| - |b.data|, |b.data|);
      FirstLocated(b, tail, offset);
      ReadMore(frame, tail, offset, codec, l);
      LeadingFramesRead(blocks[1..], rest, l.offset + l.length, codec);
      BlocksOfCons(l, ReadAll(tail, l.offset + l.length, codec).blocks);
      assert blocks == [b] + blocks[1..];
    }
  }

  /** Blocks are read to a clean end exactly when the bytes are their frames and every
      one is intact. */
  lemma ReadsIffFrames(bs: seq<Byte>, offset: nat, codec: Codec, blocks: seq<CarBlock>)
    ensures ReadAll(bs, offset, codec).ok && BlocksOf(ReadAll(bs, offset, codec).blocks) == blocks
       <==> bs == Frames(blocks) && AllIntact(blocks, codec)
  {
    hide ReadAll, AllIntact, Frame, Payload, Intact, Locates;
    if ReadAll(bs, offset, codec).ok && BlocksOf(ReadAll(bs, offset, codec).blocks) == blocks {
      var rest := ReadsLeadingFrames(bs, offset, codec);
      assert Frames(blocks) + [] == Frames(blocks);
    }
    if bs == Frames(blocks) && AllIntact(blocks, codec) {
      NothingStarts(codec);
      LeadingFramesRead(blocks, [], offset, codec);
      assert Frames(blocks) + [] == bs;
    }
  }

  lemma NothingStarts(codec: Codec)
    ensures !StartsIntact([], codec)
  {
  }

  // ---- The archive ----

  /** The bytes begin with the frame of `header`. */
  ghost predicate Heads(bs: seq<Byte>, header: seq<Byte>) {
    |header| < LIMIT && Frame(header) <= bs
  }

  lemma HeaderReadIff(bs: seq<Byte>, header: seq<Byte>)
    ensures (ReadFrame(bs).Some? && ReadFrame(bs).value.0 == header) <==> Heads(bs, header)
    ensures Heads(bs, header) ==> ReadFrame(bs).value.1 == |Frame(header)|
  {
    hide ReadFrame;
    if ReadFrame(bs).Some? {
      FrameReadIff(bs, header, ReadFrame(bs).value.1);
    }
    if Heads(bs, header) {
      assert bs[..|Frame(header)|] == Frame(header);
      FrameReadIff(bs, header, |Frame(header)|);
    }
  }

  /** An archive opens exactly when it begins with the frame of a version 1 header, and
      then its blocks are read from what follows. */
  lemma OpensIff(bs: seq<Byte>, codec: Codec, o: Opened)
    ensures Read(bs, codec) == Ok(o) <==> exists header ::
      && Heads(bs, header) && codec.decodeHeader(header) == Some(Header(1, o.roots))
      && o.reading
           == ReadAll(bs[|Frame(header)|..], |Frame(codec.encodeHeader(Header(1, o.roots)))|, codec)
  {
    hide ReadAll, ReadFrame, Frame;
    if Read(bs, codec) == Ok(o) {
      HeaderReadIff(bs, ReadFrame(bs).value.0);
    }
    if header :|
      && Heads(bs, header) && codec.decodeHeader(header) == Some(Header(1, o.roots))
      && o.reading
           == ReadAll(bs[|Frame(header)|..], |Frame(codec.encodeHeader(Header(1, o.roots)))|, codec) {
      HeaderReadIff(bs, header);
    }
  }

  /** A header of another version is named, and anything else is no header. */
  lemma NotOpenedWhy(bs: seq<Byte>, codec: Codec, e: CarError)
    ensures Read(bs, codec) == Err(e) <==> match e
      case BadVersion(v) => v != 1 && exists header, h ::
        Heads(bs, header) && codec.decodeHeader(header) == Some(h) && h.version == v
      case BadHeader => forall header :: Heads(bs, header) ==> codec.decodeHeader(header).None?
  {
    hide ReadAll, ReadFrame, Heads;
    if ReadFrame(bs).Some? {
      HeaderReadIff(bs, ReadFrame(bs).value.0);
    }
    forall header | Heads(bs, header)
      ensures ReadFrame(bs).Some? && ReadFrame(bs).value.0 == header
    {
      HeaderReadIff(bs, header);
    }
  }
}
