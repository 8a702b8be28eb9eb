/** Content-addressed archives (core/car/car.go), as the "Data" section of the CARv1
    specification lays them out: a header frame, then one frame per block. */
module Car {
  import opened Graph
  import opened Varint

  // ---- Content identifiers ----

  /** Where the CID at the start of some bytes ends: version 0 is a bare SHA-256
      multihash, version 1 announces its codec, hash and digest length. */
  function CidEnd(bs: seq<Byte>): Option<nat> {
    if |bs| > 2 && bs[0] == 0x12 && bs[1] == 0x20 then
      if |bs| < 34 then None else Some(34)
    else
      match Skip(bs, 0)
      case None => None
      case Some((version, a)) =>
        if version != 1 then None
        else match Skip(bs, a)
          case None => None
          case Some((_, b)) =>
            match Skip(bs, b)
            case None => None
            case Some((_, c)) =>
              match Skip(bs, c)
              case None => None
              case Some((length, d)) => if d + length <= |bs| then Some(d + length) else None
  }

  /** Reads the varint at position `at`. */
  function Skip(bs: seq<Byte>, at: nat): (r: Option<(nat, nat)>)
    requires at <= |bs|
    ensures r.Some? ==> at < r.value.1 <= |bs|
  {
    match FromUvarint(bs[at..])
    case Err(_) => None
    case Ok((n, size)) => ReadIsEncoded(bs[at..], 0); Some((n, at + size))
  }

  lemma SkipAhead(bs: seq<Byte>, at: nat, rest: seq<Byte>)
    requires at <= |bs| && Skip(bs, at).Some?
    ensures Skip(bs + rest, at) == Skip(bs, at)
  {
    ReadsAhead(bs[at..], 0, rest);
    assert (bs + rest)[at..] == bs[at..] + rest;
  }

  predicate IsCid(bs: seq<Byte>) {
    CidEnd(bs) == Some(|bs|)
  }

  /** CIDs delimit themselves. */
  lemma CidEndsItself(cid: seq<Byte>, rest: seq<Byte>)
    requires IsCid(cid)
    ensures CidEnd(cid + rest) == Some(|cid|)
  {
    if !(|cid| > 2 && cid[0] == 0x12 && cid[1] == 0x20) {
      var a := Skip(cid, 0).value.1;
      var b := Skip(cid, a).value.1;
      var c := Skip(cid, b).value.1;
      var bs := cid + rest;
      SkipAhead(cid, 0, rest);
      SkipAhead(cid, a, rest);
      SkipAhead(cid, b, rest);
      SkipAhead(cid, c, rest);
      assert bs[0] == cid[0];
      ShortCid(cid, rest);
    }
  }

  /** A version 1 CID is not mistaken for a version 0 one, however short. */
  lemma ShortCid(cid: seq<Byte>, rest: seq<Byte>)
    requires IsCid(cid) && !(|cid| > 2 && cid[0] == 0x12 && cid[1] == 0x20)
    ensures !(|cid + rest| > 2 && (cid + rest)[0] == 0x12 && (cid + rest)[1] == 0x20)
  {
    assert cid[0..] == cid;
    DecodesCanonically(cid);
    assert ToUvarint(1) == [1];
    assert cid[..1][0] == 1;
  }

  /** The bytes are a version 1 marker, a codec, a hash code, and a digest after its length. */
  ghost predicate VersionOne(bs: seq<Byte>) {
    exists codec: nat, hash: nat, digest: seq<Byte> ::
      && codec < LIMIT && hash < LIMIT && |digest| < LIMIT && bs == Assembled(codec, hash, digest)
  }

  function Assembled(codec: nat, hash: nat, digest: seq<Byte>): seq<Byte> {
    [1] + (ToUvarint(codec) + (ToUvarint(hash) + (ToUvarint(|digest|) + digest)))
  }

  /** A CID is a bare SHA-256 multihash or of version 1, and nothing else. */
  lemma CidFormIff(bs: seq<Byte>)
    ensures IsCid(bs) <==> (|bs| == 34 && bs[0] == 0x12 && bs[1] == 0x20) || VersionOne(bs)
  {
    if IsCid(bs) && !(|bs| > 2 && bs[0] == 0x12 && bs[1] == 0x20) {
      var a := Skip(bs, 0).value.1;
      var (codec, b) := Skip(bs, a).value;
      var (hash, c) := Skip(bs, b).value;
      var (length, e) := Skip(bs, c).value;
      SkipSplits(bs, 0);
      SkipSplits(bs, a);
      SkipSplits(bs, b);
      SkipSplits(bs, c);
      assert ToUvarint(1) == [1] && bs[0..] == bs;
      assert |bs[e..]| == length && bs == Assembled(codec, hash, bs[e..]);
    }
    if codec: nat, hash: nat, digest: seq<Byte> :|
      codec < LIMIT && hash < LIMIT && |digest| < LIMIT && bs == Assembled(codec, hash, digest) {
      AssembledIsCid(codec, hash, digest);
    }
  }

  /** What is skipped is an encoding. */
  lemma SkipSplits(bs: seq<Byte>, at: nat)
    requires at <= |bs| && Skip(bs, at).Some?
    ensures var (n, end) := Skip(bs, at).value;
      n < LIMIT && at < end <= |bs| && bs[at..] == ToUvarint(n) + bs[end..]
  {
    var (n, end) := Skip(bs, at).value;
    ReadIsEncoded(bs[at..], 0);
    DecodesCanonically(bs[at..]);
    PowerFits(end - at);
    assert bs[at..] == bs[at..][..end - at] + bs[at..][end - at..];
  }

  lemma SkipOver(prefix: seq<Byte>, n: nat, rest: seq<Byte>)
    requires n < LIMIT
    ensures Skip(prefix + (ToUvarint(n) + rest), |prefix|) == Some((n, |prefix| + UvarintSize(n)))
  {
    VarintRoundTrip(n, rest);
    assert (prefix + (ToUvarint(n) + rest))[|prefix|..] == ToUvarint(n) + rest;
  }

  lemma AssembledIsCid(codec: nat, hash: nat, digest: seq<Byte>)
    requires codec < LIMIT && hash < LIMIT && |digest| < LIMIT
    ensures IsCid(Assembled(codec, hash, digest))
  {
    hide Skip;
    var bs := Assembled(codec, hash, digest);
    var one, two, three := [1] + ToUvarint(codec), ToUvarint(hash), ToUvarint(|digest|);
    hide ToUvarint;
    Regrouped(codec, hash, digest);
    SkipOver([], 1, bs[1..]);
    SkipOver([1], codec, two + (three + digest));
    SkipOver(one, hash, three + digest);
    SkipOver(one + two, |digest|, digest);
    assert UvarintSize(1) == 1;
  }

  lemma Regrouped(codec: nat, hash: nat, digest: seq<Byte>)
    ensures var bs := Assembled(codec, hash, digest);
      var (one, two, three) := ([1] + ToUvarint(codec), ToUvarint(hash), ToUvarint(|digest|));
      && |bs| > 1 && bs[0] == 1 && bs == [] + (ToUvarint(1) + bs[1..])
      && bs == [1] + (ToUvarint(codec) + (two + (three + digest)))
      && bs == one + (two + (three + digest)) && bs == (one + two) + (three + digest)
      && |bs| == |one| + |two| + |three| + |digest|
  {
    assert ToUvarint(1) == [1];
  }

  // ---- Writing ----

  /** A block's identifier and its bytes. */
  datatype CarBlock = CarBlock(cid: seq<Byte>, data: seq<Byte>)

  function Payload(b: CarBlock): seq<Byte> {
    b.cid + b.data
  }

  /** A length-prefixed frame. */
  function Frame(payload: seq<Byte>): seq<Byte> {
    ToUvarint(|payload|) + payload
  }

  function Frames(blocks: seq<CarBlock>): seq<Byte> {
    if blocks == [] then [] else Frame(Payload(blocks[0])) + Frames(blocks[1..])
  }

  datatype Header = Header(version: nat, roots: seq<seq<Byte>>)

  /** How a reader finds the end of an identifier at the start of a frame, checks the
      data that follows against it, and how headers are written and read. */
  datatype Codec = Codec(
    cidEnd: seq<Byte> -> Option<nat>,
    matches: (seq<Byte>, seq<Byte>) -> bool,
    encodeHeader: Header -> seq<Byte>,
    decodeHeader: seq<Byte> -> Option<Header>)

  /** The frame of a header of version 1 with these roots. */
  function HeaderFrame(roots: seq<seq<Byte>>, codec: Codec): seq<Byte> {
    Frame(codec.encodeHeader(Header(1, roots)))
  }

  /** The archive: the header, then the blocks. */
  function Archived(roots: seq<seq<Byte>>, blocks: seq<CarBlock>, codec: Codec): seq<Byte> {
    HeaderFrame(roots, codec) + Frames(blocks)
  }

  method Encode(roots: seq<seq<Byte>>, blocks: seq<CarBlock>, codec: Codec) returns (out: seq<Byte>)
    ensures out == Archived(roots, blocks, codec)
  {
    var header := codec.encodeHeader(Header(1, roots));
    out := ToUvarint(|header|) + header;
    for i := 0 to |blocks|
      invariant out + Frames(blocks[i..]) == Archived(roots, blocks, codec)
    {
      ghost var before := out;
      out := out + (ToUvarint(|blocks[i].cid| + |blocks[i].data|) + (blocks[i].cid + blocks[i].data));
      assert blocks[i..][1..] == blocks[i + 1..];
      assert before + (Frame(Payload(blocks[i])) + Frames(blocks[i + 1..])) == out + Frames(blocks[i + 1..]);
    }
    assert blocks[|blocks|..] == [];
  }

  // ---- Reading ----

  /** A frame at the start of some bytes, and where it ends. */
  function ReadFrame(bs: seq<Byte>): (r: Option<(seq<Byte>, nat)>)
    ensures r.Some? ==> 0 < r.value.1 <= |bs|
  {
    match FromUvarint(bs)
    case Err(_) => None
    case Ok((length, size)) =>
      ReadIsEncoded(bs, 0);
      if size + length <= |bs| then Some((bs[size..size + length], size + length)) else None
  }

  /** What reading a block yields: the block with the offset and length of its data, a
      clean end, or an error. */
  datatype Next = Block(block: CarBlock, offset: nat, length: nat, end: nat) | Eof | Bad

  /** `cid` ends itself, whatever data follows. */
  ghost predicate Delimits(codec: Codec, cid: seq<Byte>) {
    forall rest {:trigger codec.cidEnd(cid + rest)} :: codec.cidEnd(cid + rest) == Some(|cid|)
  }

  /** The identifiers of the CID specification do. */
  lemma CidsDelimit(codec: Codec, cid: seq<Byte>)
    requires codec.cidEnd == CidEnd && IsCid(cid)
    ensures Delimits(codec, cid)
  {
    forall rest
      ensures codec.cidEnd(cid + rest) == Some(|cid|)
    {
      CidEndsItself(cid, rest);
    }
  }

  /** The reader's step. */
  function ReadBlock(bs: seq<Byte>, offset: nat, codec: Codec): (r: Next)
    ensures r.Block? ==> 0 < r.end <= |bs|
  {
    if bs == [] then Eof
    else
      match ReadFrame(bs)
      case None => Bad
      case Some((payload, end)) =>
        match codec.cidEnd(payload)
        case None => Bad
        case Some(n) =>
          if n > |payload| then Bad
          else
            var cid, data := payload[..n], payload[n..];
            if !codec.matches(cid, data) then Bad
            else
              var next := offset + UvarintSize(|cid| + |data|) + (|cid| + |data|);
              Block(CarBlock(cid, data), next - |data|, |data|, end)
  }

  datatype Located = Located(block: CarBlock, offset: nat, length: nat)

  datatype Reading = Reading(blocks: seq<Located>, ok: bool)

  /** The roots of an archive and what its blocks read as. */
  datatype Opened = Opened(roots: seq<seq<Byte>>, reading: Reading)

  datatype CarError = BadHeader | BadVersion(version: nat)

  /** What reading a whole archive yields. Offsets count from the size that the header
      has when it is written again. */
  function Read(bs: seq<Byte>, codec: Codec): Result<Opened, CarError> {
    match ReadFrame(bs)
    case None => Err(BadHeader)
    case Some((payload, end)) =>
      match codec.decodeHeader(payload)
      case None => Err(BadHeader)
      case Some(h) =>
        if h.version != 1 then Err(BadVersion(h.version))
        else Ok(Opened(h.roots, ReadAll(bs[end..], |Frame(codec.encodeHeader(h))|, codec)))
  }

  /** Reads the header, then blocks up to the end, keeping count of the offset. */
  method Decode(bs: seq<Byte>, codec: Codec) returns (r: Result<Opened, CarError>)
    ensures r == Read(bs, codec)
  {
    hide ReadAll;
    var frame := ReadFrame(bs);
    if frame.None? {
      return Err(BadHeader);
    }
    var (payload, end) := frame.value;
    var h := codec.decodeHeader(payload);
    if h.None? {
      return Err(BadHeader);
    }
    if h.value.version != 1 {
      return Err(BadVersion(h.value.version));
    }
    var header := codec.encodeHeader(h.value);
    var offset := UvarintSize(|header|) + |header|;
    var reading := DecodeFrom(bs[end..], offset, codec);
    r := Ok(Opened(h.value.roots, reading));
  }

  method DecodeFrom(bs: seq<Byte>, base: nat, codec: Codec) returns (r: Reading)
    ensures r == ReadAll(bs, base, codec)
  {
    hide ReadBlock;
    var blocks, rest, offset := [], bs, base;
    ghost var whole := ReadAll(bs, base, codec);
    assert whole == Continued(blocks, whole);
    while true
      invariant whole == Continued(blocks, ReadAll(rest, offset, codec))
      decreases |rest|
    {
      var next := ReadBlock(rest, offset, codec);
      match next {
        case Eof => return Reading(blocks, true);
        case Bad => return Reading(blocks, false);
        case Block(b, at, length, end) =>
          ReadOne(rest, offset, codec, next);
          ContinueThen(blocks, Located(b, at, length), ReadAll(rest[end..], at + length, codec));
          blocks := blocks + [Located(b, at, length)];
          rest, offset := rest[end..], at + length;
      }
    }
  }

  ghost function Continued(blocks: seq<Located>, rest: Reading): Reading {
    Reading(blocks + rest.blocks, rest.ok)
  }

  lemma ReadOne(bs: seq<Byte>, offset: nat, codec: Codec, next: Next)
    requires next == ReadBlock(bs, offset, codec) && next.Block?
    ensures ReadAll(bs, offset, codec)
         == Then(Located(next.block, next.offset, next.length),
                 ReadAll(bs[next.end..], next.offset + next.length, codec))
  {
  }

  function Then(l: Located, later: Reading): Reading {
    Reading([l] + later.blocks, later.ok)
  }

  lemma ContinueThen(blocks: seq<Located>, l: Located, later: Reading)
    ensures Continued(blocks, Then(l, later)) == Continued(blocks + [l], later)
  {
    assert blocks + ([l] + later.blocks) == (blocks + [l]) + later.blocks;
  }

  function ReadAll(bs: seq<Byte>, offset: nat, codec: Codec): Reading
    decreases |bs|
  {
    match ReadBlock(bs, offset, codec)
    case Eof => Reading([], true)
    case Bad => Reading([], false)
    case Block(b, at, length, end) =>
      Then(Located(b, at, length), ReadAll(bs[end..], at + length, codec))
  }

  // ---- Round trip ----

  lemma FrameReadsBack(payload: seq<Byte>, rest: seq<Byte>)
    requires |payload| < LIMIT
    ensures ReadFrame(Frame(payload) + rest) == Some((payload, |Frame(payload)|))
  {
    VarintRoundTrip(|payload|, payload + rest);
    var bs := Frame(payload) + rest;
    assert bs == ToUvarint(|payload|) + (payload + rest);
    var size := UvarintSize(|payload|);
    assert bs[size..size + |payload|] == payload;
  }

  /** Blocks whose identifiers end themselves and match their data, and that a frame can hold. */
  ghost predicate WellFormed(blocks: seq<CarBlock>, codec: Codec) {
    forall b :: b in blocks ==> Delimits(codec, b.cid) && codec.matches(b.cid, b.data) && |b.cid| + |b.data| < LIMIT
  }

  lemma BlockReadsBack(b: CarBlock, rest: seq<Byte>, offset: nat, codec: Codec)
    requires Delimits(codec, b.cid) && codec.matches(b.cid, b.data) && |b.cid| + |b.data| < LIMIT
    ensures var frame := Frame(Payload(b));
      ReadBlock(frame + rest, offset, codec)
        == Block(b, offset + |frame| - |b.data|, |b.data|, |frame|)
  {
    FrameReadsBack(Payload(b), rest);
    assert codec.cidEnd(b.cid + b.data) == Some(|b.cid|);
    assert Payload(b)[..|b.cid|] == b.cid && Payload(b)[|b.cid|..] == b.data;
    assert Frame(Payload(b)) + rest != [];
  }

  /** A block is where its offset and length say, in a stream that starts at `base`. */
  ghost predicate LocatedAt(stream: seq<Byte>, base: nat, l: Located, b: CarBlock) {
    && l.block == b && base <= l.offset && l.offset - base + l.length <= |stream|
    && stream[l.offset - base..l.offset - base + l.length] == b.data
  }

  ghost predicate Locates(stream: seq<Byte>, base: nat, located: seq<Located>, blocks: seq<CarBlock>) {
    && |located| == |blocks|
    && forall i :: 0 <= i < |blocks| ==> LocatedAt(stream, base, located[i], blocks[i])
  }

  /** A location in the rest of a stream holds in the whole of it. */
  lemma ShiftOne(frame: seq<Byte>, rest: seq<Byte>, base: nat, l: Located, b: CarBlock)
    requires LocatedAt(rest, base + |frame|, l, b)
    ensures LocatedAt(frame + rest, base, l, b)
  {
    var at := l.offset - base - |frame|;
    assert (frame + rest)[|frame| + at..|frame| + at + l.length] == rest[at..at + l.length];
  }

  lemma Shift(frame: seq<Byte>, rest: seq<Byte>, base: nat, located: seq<Located>, blocks: seq<CarBlock>)
    requires Locates(rest, base + |frame|, located, blocks)
    ensures Locates(frame + rest, base, located, blocks)
  {
    forall i | 0 <= i < |blocks|
      ensures LocatedAt(frame + rest, base, located[i], blocks[i])
    {
      ShiftOne(frame, rest, base, located[i], blocks[i]);
    }
  }

  lemma FirstLocated(b: CarBlock, rest: seq<Byte>, base: nat)
    ensures var frame := Frame(Payload(b));
      |b.data| <= |frame| && LocatedAt(frame + rest, base, Located(b, base + |frame| - |b.data|, |b.data|), b)
  {
    var frame := Frame(Payload(b));
    assert frame == (ToUvarint(|Payload(b)|) + b.cid) + b.data;
    assert (frame + rest)[|frame| - |b.data|..|frame|] == b.data;
  }

  lemma LocatesCons(stream: seq<Byte>, base: nat, l: Located, later: seq<Located>, blocks: seq<CarBlock>)
    requires blocks != [] && LocatedAt(stream, base, l, blocks[0]) && Locates(stream, base, later, blocks[1..])
    ensures Locates(stream, base, [l] + later, blocks)
  {
    var located := [l] + later;
    forall i | 0 <= i < |blocks|
      ensures LocatedAt(stream, base, located[i], blocks[i])
    {
      if i > 0 {
        assert located[i] == later[i - 1] && blocks[i] == blocks[1..][i - 1];
      }
    }
  }

  /** Reading on after the first frame. */
  lemma ReadMore(frame: seq<Byte>, rest: seq<Byte>, base: nat, codec: Codec, l: Located)
    requires ReadBlock(frame + rest, base, codec) == Block(l.block, l.offset, l.length, |frame|)
    ensures ReadAll(frame + rest, base, codec) == Then(l, ReadAll(rest, l.offset + l.length, codec))
  {
    hide ReadBlock;
    assert (frame + rest)[|frame|..] == rest;
    ReadOne(frame + rest, base, codec, ReadBlock(frame + rest, base, codec));
  }

  /** One located block in front of a stream whose blocks are located. */
  lemma LocateMore(frame: seq<Byte>, rest: seq<Byte>, base: nat, l: Located, later: seq<Located>, blocks: seq<CarBlock>)
    requires blocks != [] && LocatedAt(frame + rest, base, l, blocks[0])
    requires Locates(rest, base + |frame|, later, blocks[1..])
    ensures Locates(frame + rest, base, [l] + later, blocks)
  {
    Shift(frame, rest, base, later, blocks[1..]);
    LocatesCons(frame + rest, base, l, later, blocks);
  }

  /** Reading the stream gives the blocks, each located in it. */
  ghost predicate ReadsBack(stream: seq<Byte>, base: nat, codec: Codec, blocks: seq<CarBlock>) {
    var r := ReadAll(stream, base, codec);
    r.ok && Locates(stream, base, r.blocks, blocks)
  }

  lemma ReadNothing(base: nat, codec: Codec)
    ensures ReadAll([], base, codec) == Reading([], true)
  {
  }

  lemma {:induction false} FramesReadBack(blocks: seq<CarBlock>, base: nat, codec: Codec)
    requires WellFormed(blocks, codec)
    ensures ReadsBack(Frames(blocks), base, codec, blocks)
  {
    hide ReadBlock, Frame, Payload;
    if blocks == [] {
      ReadNothing(base, codec);
    } else {
      var b, frame, rest := blocks[0], Frame(Payload(blocks[0])), Frames(blocks[1..]);
      assert b in blocks;
      BlockReadsBack(b, rest, base, codec);
      FramesReadBack(blocks[1..], base + |frame|, codec);
      FirstLocated(b, rest, base);
      var l := Located(b, base + |frame| - |b.data|, |b.data|);
      ReadMore(frame, rest, base, codec, l);
      LocateMore(frame, rest, base, l, ReadAll(rest, base + |frame|, codec).blocks, blocks);
    }
  }

  /** A header that is read back as it was written, and that a frame can hold. */
  predicate Reads(roots: seq<seq<Byte>>, codec: Codec) {
    var header := codec.encodeHeader(Header(1, roots));
    codec.decodeHeader(header) == Some(Header(1, roots)) && |header| < LIMIT
  }

  /** Reading an archive back gives the same roots and the same blocks in order, and
      locates the bytes of each block in the stream. */
  lemma CarRoundTrip(roots: seq<seq<Byte>>, blocks: seq<CarBlock>, codec: Codec)
    requires Reads(roots, codec) && WellFormed(blocks, codec)
    ensures var stream := Archived(roots, blocks, codec); var r := Read(stream, codec);
      && r.Ok? && r.value.roots == roots
      && r.value.reading.ok && Locates(stream, 0, r.value.reading.blocks, blocks)
  {
    hide ReadAll, Frames, Frame, WellFormed;
    FrameReadsBack(codec.encodeHeader(Header(1, roots)), Frames(blocks));
    AfterHeader(HeaderFrame(roots, codec), Frames(blocks), codec, blocks);
  }

  /** In particular when identifiers are those of the CID specification. */
  lemma CidArchiveReads(roots: seq<seq<Byte>>, blocks: seq<CarBlock>, codec: Codec)
    requires Reads(roots, codec) && codec.cidEnd == CidEnd
    requires forall b :: b in blocks ==> IsCid(b.cid) && codec.matches(b.cid, b.data) && |b.cid| + |b.data| < LIMIT
    ensures var stream := Archived(roots, blocks, codec); var r := Read(stream, codec);
      && r.Ok? && r.value.roots == roots
      && r.value.reading.ok && Locates(stream, 0, r.value.reading.blocks, blocks)
  {
    hide Read, Archived, CidEnd, Locates;
    forall b | b in blocks
      ensures Delimits(codec, b.cid)
    {
      CidsDelimit(codec, b.cid);
    }
    CarRoundTrip(roots, blocks, codec);
  }

  lemma AfterHeader(h: seq<Byte>, rest: seq<Byte>, codec: Codec, blocks: seq<CarBlock>)
    requires WellFormed(blocks, codec) && rest == Frames(blocks)
    ensures (h + rest)[|h|..] == rest
    ensures var r := ReadAll(rest, |h|, codec); r.ok && Locates(h + rest, 0, r.blocks, blocks)
  {
    FramesReadBack(blocks, |h|, codec);
    Shift(h, rest, 0, ReadAll(rest, |h|, codec).blocks, blocks);
  }
}
