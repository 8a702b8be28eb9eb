/** Unsigned varints as the multiformats specification defines them: seven bits to a
    byte, least significant first, minimal, and at most nine bytes long. */
module Varint {
  import opened Graph

  type Byte = b: int | 0 <= b < 256

  const MAX_LEN: nat := 9
  const LIMIT: nat := 0x8000_0000_0000_0000

  function UvarintSize(n: nat): (r: nat)
    ensures r > 0
  {
    if n < 128 then 1 else 1 + UvarintSize(n / 128)
  }

  function ToUvarint(n: nat): (r: seq<Byte>)
    ensures |r| == UvarintSize(n)
  {
    if n < 128 then [n] else [n % 128 + 128] + ToUvarint(n / 128)
  }

  datatype VarintError = Overflow | NotMinimal | Underflow

  /** Reads from position `i` of an encoding that starts at 0: the value of the
      remaining bytes, and where they end. */
  function ReadFrom(bs: seq<Byte>, i: nat): Result<(nat, nat), VarintError>
    decreases |bs| - i
  {
    if i >= |bs| then Err(Underflow)
    else if (i == 8 && bs[i] >= 128) || i >= MAX_LEN then Err(Overflow)
    else if bs[i] < 128 then
      if bs[i] == 0 && i > 0 then Err(NotMinimal) else Ok((bs[i], i + 1))
    else
      match ReadFrom(bs, i + 1)
      case Err(e) => Err(e)
      case Ok((high, end)) => Ok((bs[i] - 128 + 128 * high, end))
  }

  function FromUvarint(bs: seq<Byte>): Result<(nat, nat), VarintError> {
    ReadFrom(bs, 0)
  }

  // ---- Round trips ----

  function Pow128(k: nat): nat {
    if k == 0 then 1 else 128 * Pow128(k - 1)
  }

  lemma {:induction false} SizeBound(n: nat, k: nat)
    requires k > 0 && n < Pow128(k)
    ensures UvarintSize(n) <= k
  {
    assert Pow128(1) == 128;
    if n >= 128 {
      SizeBound(n / 128, k - 1);
    }
  }

  lemma LimitFits(n: nat)
    requires n < LIMIT
    ensures UvarintSize(n) <= MAX_LEN
  {
    assert Pow128(3) == 0x20_0000;
    assert Pow128(6) == 128 * (128 * (128 * Pow128(3)));
    assert Pow128(9) == 128 * (128 * (128 * Pow128(6)));
    SizeBound(n, 9);
  }

  lemma {:induction false} ReadsBack(prefix: seq<Byte>, n: nat, rest: seq<Byte>)
    requires |prefix| + UvarintSize(n) <= MAX_LEN && (prefix != [] ==> n > 0)
    ensures ReadFrom(prefix + ToUvarint(n) + rest, |prefix|) == Ok((n, |prefix| + UvarintSize(n)))
    decreases n
  {
    var bs := prefix + ToUvarint(n) + rest;
    if n >= 128 {
      var b: Byte := n % 128 + 128;
      assert bs == (prefix + [b]) + ToUvarint(n / 128) + rest;
      ReadsBack(prefix + [b], n / 128, rest);
      assert bs[|prefix|] == b;
    }
  }

  /** Decoding undoes encoding, whatever follows. */
  lemma VarintRoundTrip(n: nat, rest: seq<Byte>)
    requires n < LIMIT
    ensures FromUvarint(ToUvarint(n) + rest) == Ok((n, UvarintSize(n)))
  {
    LimitFits(n);
    ReadsBack([], n, rest);
    assert [] + ToUvarint(n) + rest == ToUvarint(n) + rest;
  }

  lemma {:induction false} ReadIsEncoded(bs: seq<Byte>, i: nat)
    requires ReadFrom(bs, i).Ok?
    ensures var (n, end) := ReadFrom(bs, i).value;
      && i < end <= |bs| && end <= MAX_LEN && bs[i..end] == ToUvarint(n)
      && (i > 0 ==> n > 0) && n < Pow128(end - i)
    decreases |bs| - i
  {
    if bs[i] < 128 {
      assert bs[i..i + 1] == [bs[i]];
      assert Pow128(1) == 128 * Pow128(0);
    } else {
      ReadIsEncoded(bs, i + 1);
      var (high, end) := ReadFrom(bs, i + 1).value;
      SliceCons(bs, i, end);
      var n := bs[i] - 128 + 128 * high;
      assert n / 128 == high && n % 128 == bs[i] - 128;
      assert Pow128(end - i) == 128 * Pow128(end - i - 1);
    }
  }

  lemma SliceCons(bs: seq<Byte>, i: nat, end: nat)
    requires i < end <= |bs|
    ensures bs[i..end] == [bs[i]] + bs[i + 1..end]
  {
  }

  /** Only minimal encodings decode: whatever is read is the encoding of its value. */
  lemma DecodesCanonically(bs: seq<Byte>)
    requires FromUvarint(bs).Ok?
    ensures var (n, end) := FromUvarint(bs).value; end <= |bs| && bs[..end] == ToUvarint(n) && end == UvarintSize(n)
  {
    ReadIsEncoded(bs, 0);
    assert bs[0..FromUvarint(bs).value.1] == bs[..FromUvarint(bs).value.1];
  }

  /** A decoded varint does not depend on what comes after it. */
  lemma {:induction false} ReadsAhead(bs: seq<Byte>, i: nat, rest: seq<Byte>)
    requires ReadFrom(bs, i).Ok?
    ensures ReadFrom(bs + rest, i) == ReadFrom(bs, i)
    decreases |bs| - i
  {
    if bs[i] >= 128 {
      ReadsAhead(bs, i + 1, rest);
    }
  }

  /** `before` with `done` written over it from position `at`. */
  ghost function Spliced(before: seq<Byte>, at: nat, done: seq<Byte>): seq<Byte>
    requires at + |done| <= |before|
  {
    before[..at] + done + before[at + |done|..]
  }

  lemma PutOne(before: seq<Byte>, at: nat, done: seq<Byte>, b: Byte)
    requires at + |done| < |before|
    ensures |Spliced(before, at, done)| == |before|
    ensures Spliced(before, at, done)[at + |done| := b] == Spliced(before, at, done + [b])
  {
  }

  lemma PutNone(before: seq<Byte>, at: nat)
    requires at <= |before|
    ensures Spliced(before, at, []) == before
  {
  }

  /** The varint of `n` is what is written so far, and the varint of `m`. */
  lemma PutMore(n: nat, done: seq<Byte>, m: nat)
    requires m >= 128 && done + ToUvarint(m) == ToUvarint(n)
    ensures (done + [m % 128 + 128]) + ToUvarint(m / 128) == ToUvarint(n)
  {
    assert done + ([m % 128 + 128] + ToUvarint(m / 128)) == (done + [m % 128 + 128]) + ToUvarint(m / 128);
  }

  lemma PutLast(n: nat, done: seq<Byte>, m: nat)
    requires m < 128 && done + ToUvarint(m) == ToUvarint(n)
    ensures done + [m] == ToUvarint(n)
  {
  }

  /** Writes a varint in place. */
  method PutUvarint(buf: array<Byte>, at: nat, n: nat)
    requires at + UvarintSize(n) <= buf.Length
    modifies buf
    ensures buf[..] == Spliced(old(buf[..]), at, ToUvarint(n))
  {
    hide ToUvarint, UvarintSize, Spliced;
    ghost var before := buf[..];
    ghost var done: seq<Byte> := [];
    PutNone(before, at);
    var i, m := at, n;
    while m >= 128
      invariant i == at + |done| && done + ToUvarint(m) == ToUvarint(n)
      invariant buf[..] == Spliced(before, at, done)
      decreases m
    {
      PutMore(n, done, m);
      PutOne(before, at, done, m % 128 + 128);
      buf[i] := m % 128 + 128;
      done := done + [m % 128 + 128];
      i, m := i + 1, m / 128;
    }
    PutLast(n, done, m);
    PutOne(before, at, done, m);
    buf[i] := m;
  }

  lemma {:induction false} PowerFits(k: nat)
    requires k <= MAX_LEN
    ensures Pow128(k) <= LIMIT
  {
    assert Pow128(3) == 0x20_0000;
    assert Pow128(6) == 128 * (128 * (128 * Pow128(3)));
    assert Pow128(9) == 128 * (128 * (128 * Pow128(6)));
    PowerGrows(k, 9);
  }

  lemma {:induction false} PowerGrows(j: nat, k: nat)
    requires j <= k
    ensures 0 < Pow128(j) <= Pow128(k)
  {
    if j > 0 {
      PowerGrows(j - 1, k - 1);
    } else if k > 0 {
      PowerGrows(0, k - 1);
    }
  }

  // ---- What an encoding is ----

  /** The number that groups of seven bits stand for, least significant first. */
  function Value(bs: seq<Byte>): nat {
    if bs == [] then 0 else bs[0] % 128 + 128 * Value(bs[1..])
  }

  /** An encoding is minimal, and every byte but its last says that more follow. */
  predicate Delimited(bs: seq<Byte>) {
    && bs != [] && bs[|bs| - 1] < 128 && (|bs| > 1 ==> bs[|bs| - 1] != 0)
    && forall i :: 0 <= i < |bs| - 1 ==> bs[i] >= 128
  }

  lemma {:induction false} EncodedStands(n: nat)
    ensures Delimited(ToUvarint(n)) && Value(ToUvarint(n)) == n
  {
    var bs := ToUvarint(n);
    if n < 128 {
      assert bs == [n] && bs[1..] == [];
    } else {
      EncodedStands(n / 128);
      var high := ToUvarint(n / 128);
      assert bs[1..] == high;
      assert forall i :: 0 < i < |bs| ==> bs[i] == high[i - 1];
      assert high != [0];
    }
  }

  lemma Digits(low: nat, high: nat)
    requires low < 128
    ensures (low + 128 * high) / 128 == high && (low + 128 * high) % 128 == low
  {
  }

  lemma EncodesOneMore(b: Byte, high: nat)
    requires b >= 128 && high > 0
    ensures ToUvarint(b - 128 + 128 * high) == [b] + ToUvarint(high)
  {
    Digits(b - 128, high);
  }

  lemma ValueRest(bs: seq<Byte>)
    requires bs != [] && bs[0] >= 128
    ensures Value(bs) == bs[0] - 128 + 128 * Value(bs[1..])
  {
  }

  lemma DelimitedRest(bs: seq<Byte>)
    requires Delimited(bs) && |bs| > 1
    ensures Delimited(bs[1..]) && bs[0] >= 128 && Value(bs[1..]) > 0 && bs == [bs[0]] + bs[1..]
  {
    hide Value;
    var rest := bs[1..];
    assert forall i :: 0 <= i < |rest| ==> rest[i] == bs[i + 1];
    PositiveValue(rest);
  }

  lemma {:induction false} StandingEncodes(bs: seq<Byte>)
    requires Delimited(bs)
    ensures ToUvarint(Value(bs)) == bs
  {
    if |bs| == 1 {
      assert bs[1..] == [] && bs == [bs[0]];
    } else {
      hide Value, ToUvarint, Delimited;
      DelimitedRest(bs);
      ValueRest(bs);
      StandingEncodes(bs[1..]);
      EncodesOneMore(bs[0], Value(bs[1..]));
    }
  }

  /** The varint of a number is the delimited sequence of bytes that stands for it. */
  lemma EncodesIff(n: nat, bs: seq<Byte>)
    ensures ToUvarint(n) == bs <==> Delimited(bs) && Value(bs) == n
  {
    EncodedStands(n);
    if Delimited(bs) && Value(bs) == n {
      StandingEncodes(bs);
    }
  }

  lemma {:induction false} PositiveValue(bs: seq<Byte>)
    requires bs != [] && bs[|bs| - 1] % 128 != 0
    ensures Value(bs) > 0
  {
    if |bs| > 1 {
      PositiveValue(bs[1..]);
    }
  }

  // ---- Failures ----

  /** All of the first `n` bytes say that more follow. */
  predicate Continues(bs: seq<Byte>, n: nat) {
    n <= |bs| && forall i :: 0 <= i < n ==> bs[i] >= 128
  }

  lemma {:induction false} ReadFailsWhy(bs: seq<Byte>, i: nat, e: VarintError)
    requires i <= 8 && Continues(bs, i)
    ensures ReadFrom(bs, i) == Err(e) <==> match e
      case Underflow => |bs| < MAX_LEN && Continues(bs, |bs|)
      case Overflow => Continues(bs, MAX_LEN)
      case NotMinimal => exists k :: i <= k < |bs| && 0 < k < MAX_LEN && Continues(bs, k) && bs[k] == 0
    decreases |bs| - i
  {
    if i < |bs| && bs[i] >= 128 && i < 8 {
      ReadFailsWhy(bs, i + 1, e);
    }
  }

  /** No varint is read when the bytes end too early, when the ninth of them is not the
      last, or when the last is zero and not the first. */
  lemma FailsWhy(bs: seq<Byte>, e: VarintError)
    ensures FromUvarint(bs) == Err(e) <==> match e
      case Underflow => |bs| < MAX_LEN && Continues(bs, |bs|)
      case Overflow => Continues(bs, MAX_LEN)
      case NotMinimal => exists k :: 0 < k < |bs| && k < MAX_LEN && Continues(bs, k) && bs[k] == 0
  {
    ReadFailsWhy(bs, 0, e);
  }
}
