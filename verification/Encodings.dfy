/** Values tagged with varints: signatures (ucan/crypto/signature), multiformats
    (principal/multiformat) and DIDs (did). */
module Encodings {
  import opened Graph
  import opened Varint

  // ---- Signatures ----

  /** Code, length of the raw signature, raw signature, and for a non-standard
      algorithm its name. */
  function SignatureBytes(code: nat, raw: seq<Byte>, name: seq<Byte>): seq<Byte> {
    ToUvarint(code) + ToUvarint(|raw|) + raw + name
  }

  const NON_STANDARD: nat := 0xd000

  method CopyInto(buf: array<Byte>, at: nat, src: seq<Byte>)
    requires at + |src| <= buf.Length
    modifies buf
    ensures buf[..] == old(buf[..at]) + src + old(buf[at + |src|..])
  {
    for i := 0 to |src|
      invariant buf[..at] == old(buf[..at]) && buf[at..at + i] == src[..i]
      invariant buf[at + i..] == old(buf[at + i..])
    {
      buf[at + i] := src[i];
      assert buf[at..at + i + 1] == src[..i] + [src[i]];
    }
    assert buf[..] == buf[..at] + buf[at..at + |src|] + buf[at + |src|..];
  }

  method NewSignature(code: nat, raw: seq<Byte>) returns (sig: array<Byte>)
    ensures fresh(sig) && sig[..] == SignatureBytes(code, raw, [])
  {
    sig := NewNamed(code, raw, []);
  }

  method NewNonStandard(name: seq<Byte>, raw: seq<Byte>) returns (sig: array<Byte>)
    ensures fresh(sig) && sig[..] == SignatureBytes(NON_STANDARD, raw, name)
  {
    sig := NewNamed(NON_STANDARD, raw, name);
  }

  method NewNamed(code: nat, raw: seq<Byte>, name: seq<Byte>) returns (sig: array<Byte>)
    ensures fresh(sig) && sig[..] == SignatureBytes(code, raw, name)
  {
    var cl, rl := UvarintSize(code), UvarintSize(|raw|);
    sig := new Byte[cl + rl + |raw| + |name|](_ => 0);
    PutUvarint(sig, 0, code);
    PutUvarint(sig, cl, |raw|);
    assert sig[..cl + rl] == ToUvarint(code) + ToUvarint(|raw|);
    CopyInto(sig, cl + rl, raw);
    assert sig[..cl + rl + |raw|] == ToUvarint(code) + ToUvarint(|raw|) + raw;
    CopyInto(sig, cl + rl + |raw|, name);
  }

  /** A reader that ignores the error and yields zero. */
  function ValueOf(bs: seq<Byte>): nat {
    match FromUvarint(bs)
    case Ok((n, _)) => n
    case Err(_) => 0
  }

  function Code(sig: seq<Byte>): nat {
    ValueOf(sig)
  }

  /** Slicing beyond the end of a signature is an error of the caller. */
  function Size(sig: seq<Byte>): nat
    requires UvarintSize(Code(sig)) <= |sig|
  {
    ValueOf(sig[UvarintSize(Code(sig))..])
  }

  function RawOf(sig: seq<Byte>): seq<Byte>
    requires UvarintSize(Code(sig)) <= |sig| && UvarintSize(Code(sig)) + UvarintSize(Size(sig)) <= |sig|
  {
    sig[UvarintSize(Code(sig)) + UvarintSize(Size(sig))..]
  }

  /** A signature gives back its code, the length of its raw part, and that part
      followed by the name of a non-standard algorithm. */
  lemma SignatureRoundTrip(code: nat, raw: seq<Byte>, name: seq<Byte>)
    requires code < LIMIT && |raw| < LIMIT
    ensures var sig := SignatureBytes(code, raw, name);
      && UvarintSize(Code(sig)) <= |sig| && Code(sig) == code
      && Size(sig) == |raw| && UvarintSize(code) + UvarintSize(|raw|) <= |sig|
      && RawOf(sig) == raw + name
  {
    var sig := SignatureBytes(code, raw, name);
    var tail := ToUvarint(|raw|) + raw + name;
    assert sig == ToUvarint(code) + tail;
    VarintRoundTrip(code, tail);
    assert sig[UvarintSize(code)..] == tail == ToUvarint(|raw|) + (raw + name);
    VarintRoundTrip(|raw|, raw + name);
  }

  // ---- Multiformats ----

  function Tagged(code: nat, bytes: seq<Byte>): seq<Byte> {
    ToUvarint(code) + bytes
  }

  method TagWith(code: nat, bytes: seq<Byte>) returns (tagged: array<Byte>)
    ensures fresh(tagged) && tagged[..] == Tagged(code, bytes)
  {
    var offset := UvarintSize(code);
    tagged := new Byte[|bytes| + offset](_ => 0);
    PutUvarint(tagged, 0, code);
    assert tagged[..offset] == ToUvarint(code);
    CopyInto(tagged, offset, bytes);
  }

  datatype UntagError = NoTag(error: VarintError) | OtherTag(code: nat)

  function UntagWith(code: nat, source: seq<Byte>, offset: nat): Result<seq<Byte>, UntagError>
    requires offset <= |source|
  {
    var b := source[offset..];
    match FromUvarint(b)
    case Err(e) => Err(NoTag(e))
    case Ok((tag, end)) =>
      if tag != code then Err(OtherTag(tag))
      else
        DecodesCanonically(b);
        Ok(b[UvarintSize(code)..])
  }

  /** Untagging succeeds exactly on what tagging produces. */
  lemma UntagIffTagged(code: nat, source: seq<Byte>, offset: nat, bytes: seq<Byte>)
    requires code < LIMIT && offset <= |source|
    ensures UntagWith(code, source, offset) == Ok(bytes) <==> source[offset..] == Tagged(code, bytes)
  {
    var b := source[offset..];
    if FromUvarint(b).Ok? {
      DecodesCanonically(b);
      var (n, end) := FromUvarint(b).value;
      assert b == b[..end] + b[end..];
    }
    if b == Tagged(code, bytes) {
      VarintRoundTrip(code, bytes);
      assert b[UvarintSize(code)..] == bytes;
    }
  }

  /** Otherwise the error says whether there is another tag or none at all. */
  lemma UntagFailsWith(code: nat, source: seq<Byte>, offset: nat, other: nat)
    requires other < LIMIT && offset <= |source|
    ensures UntagWith(code, source, offset) == Err(OtherTag(other))
       <==> other != code && exists bytes :: source[offset..] == Tagged(other, bytes)
    ensures UntagWith(code, source, offset).Err? && UntagWith(code, source, offset).error.NoTag?
       ==> forall bytes :: source[offset..] != Tagged(other, bytes)
  {
    var b := source[offset..];
    if FromUvarint(b).Ok? {
      DecodesCanonically(b);
      var (tag, end) := FromUvarint(b).value;
      assert b == Tagged(tag, b[end..]);
    }
    forall bytes | b == Tagged(other, bytes)
      ensures FromUvarint(b).Ok? && FromUvarint(b).value.0 == other
    {
      VarintRoundTrip(other, bytes);
    }
  }

  // ---- DIDs ----

  const DID_CORE: nat := 0x0d1d
  const ED25519: nat := 0xed
  const RSA: nat := 0x1205

  /** A DID as held: a tagged payload, and whether it is a key. */
  datatype DidValue = DidValue(key: bool, bytes: seq<Byte>)

  function DecodeDid(bytes: seq<Byte>): Option<DidValue> {
    match FromUvarint(bytes)
    case Err(_) => None
    case Ok((code, _)) =>
      if code == ED25519 || code == RSA then Some(DidValue(true, bytes))
      else if code == DID_CORE then Some(DidValue(false, bytes))
      else None
  }

  /** What follows `did:`, or `did:key:`, of the string; a key's payload is decoded
      from its base, which may fail. */
  datatype DidString = Method(suffix: seq<Byte>) | Key(payload: Option<seq<Byte>>)

  function ParseDid(s: DidString): Option<DidValue> {
    match s
    case Key(None) => None
    case Key(Some(payload)) => DecodeDid(payload)
    case Method(suffix) => Some(DidValue(false, Tagged(DID_CORE, suffix)))
  }

  function FormatDid(d: DidValue): DidString
    requires d.key || UvarintSize(DID_CORE) <= |d.bytes|
  {
    if d.key then Key(Some(d.bytes)) else Method(d.bytes[UvarintSize(DID_CORE)..])
  }

  /** The payload has the tag of a key, or that of another method. */
  ghost predicate DidPayload(d: DidValue) {
    exists code: nat, rest ::
      && d.bytes == Tagged(code, rest)
      && (if d.key then code == ED25519 || code == RSA else code == DID_CORE)
  }

  /** Bytes decode exactly when they have one of these tags, and to themselves. */
  lemma DecodesIffTagged(bytes: seq<Byte>, d: DidValue)
    ensures DecodeDid(bytes) == Some(d) <==> d.bytes == bytes && DidPayload(d)
  {
    if FromUvarint(bytes).Ok? {
      var (code, end) := FromUvarint(bytes).value;
      DecodesCanonically(bytes);
      assert bytes == Tagged(code, bytes[end..]);
    }
    if code: nat, rest :|
      && d.bytes == bytes && bytes == Tagged(code, rest)
      && (if d.key then code == ED25519 || code == RSA else code == DID_CORE) {
      VarintRoundTrip(code, rest);
    }
  }

  /** Every method but `key` parses, to its own string under the tag; a key parses exactly
      when its payload does, which may be that of another method. */
  lemma ParsesIff(s: DidString, d: DidValue)
    ensures ParseDid(s) == Some(d) <==> match s
      case Method(suffix) => !d.key && d.bytes == Tagged(DID_CORE, suffix)
      case Key(payload) => payload == Some(d.bytes) && DidPayload(d)
  {
    hide DidPayload;
    if s.Key? && s.payload.Some? {
      DecodesIffTagged(s.payload.value, d);
    }
  }

  /** Every parsed DID is recovered from its bytes. Its string is recovered too, unless
      a key's payload carries the tag of another method. */
  lemma DidRoundTrip(s: DidString)
    requires ParseDid(s).Some?
    ensures var d := ParseDid(s).value;
      && DecodeDid(d.bytes) == Some(d)
      && (d.key || UvarintSize(DID_CORE) <= |d.bytes|)
      && (FormatDid(d) == s <==> !(s.Key? && FromUvarint(d.bytes).value.0 == DID_CORE))
  {
    var d := ParseDid(s).value;
    match s
    case Method(suffix) =>
      VarintRoundTrip(DID_CORE, suffix);
      assert Tagged(DID_CORE, suffix)[UvarintSize(DID_CORE)..] == suffix;
    case Key(_) =>
      DecodesCanonically(d.bytes);
  }
}
