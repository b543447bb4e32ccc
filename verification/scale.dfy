/** SCALE primitives the metadata decoders are written in terms of: bytes, little-endian
    fixed-width integers, compact integers, length-prefixed text, options, flag-gated
    payloads and sequences.

    Every decoder consumes a prefix of its input and returns the decoded value together
    with the unread rest; every encoder returns the bytes its decoder reads back. Encoders
    return a Result because a compact integer above the big-integer mode's range cannot
    be written. */
module Scale {

  type byte = b: int | 0 <= b < 256
  type bytes = seq<byte>
  /** Text, and every Go `string` compared against it, is a byte string. */
  type Text = bytes
  type u32 = n: nat | n < 0x1_0000_0000
  type u128 = n: nat | n < 0x1_0000_0000_0000_0000_0000_0000_0000_0000

  datatype Option<+T> = None | Some(value: T)

  /** The failures of the core, each carrying the context the source puts in its message. */
  datatype Error =
    // primitive codec
    | Truncated
    | InvalidBool(b: byte)
    | InvalidOptionPrefix(b: byte)
    | CompactTooLarge(n: nat)
    // tagged unions with a byte outside their range
    | UnexpectedModifier(b: byte)
    | UnsupportedStorageTypeV14(b: byte)
    | UnexpectedStorageTypeV13(b: byte)
    | NoStorageTypeSet
    | UnknownTypeDef(b: byte)
    | UnknownPrimitive(b: byte)
    | TypeIdError(inner: Error)
    | HasherNotSupported
    // name resolution
    | ModuleNotFoundForCall(moduleName: Text, call: Text)
    | MethodNotFound(methodName: Text, moduleName: Text, call: Text)
    | IndexOutOfRange
    | EventIndexOutOfRange(eventIndex: byte, moduleName: Text)
    | ModuleIndexOutOfRange(moduleIndex: byte)
    | StorageNotFound(entry: Text, moduleName: Text)
    | StorageModuleNotFound(moduleName: Text)
    | CallIndexLength(length: nat)
    | CallIndexNotHex
    | CallIdMissing(moduleName: Text, methodIndex: byte)
    | NoCallVariants(moduleName: Text)
    | CallNotFound
    | ConstantTypeMissing(moduleName: Text, constant: Text)
    | ConstantNotFound(moduleName: Text, constant: Text)
    // account-info shim
    | EmptyAccountInfo
    | AccountInfoLength(length: nat)

  datatype Result<+T> = Ok(value: T) | Err(error: Error) {
    predicate IsFailure() {
      Err?
    }

    function PropagateFailure<U>(): Result<U>
      requires Err?
    {
      Err(error)
    }

    function Extract(): T
      requires Ok?
    {
      value
    }
  }

  type Decoder<T> = bytes -> Result<(T, bytes)>
  type Encoder<!T> = T -> Result<bytes>

  /** `dec` reads back exactly what `enc` wrote for `x`, leaving whatever followed. */
  ghost predicate RoundTripsAt<T>(enc: Encoder<T>, dec: Decoder<T>, x: T, rest: bytes) {
    enc(x).Ok? ==> dec(enc(x).value + rest) == Ok((x, rest))
  }

  /** Re-association of concatenated encodings, so that each decoding step sees its own
      encoding followed by everything after it. */
  lemma Concat2(a: bytes, b: bytes, rest: bytes)
    ensures a + b + rest == a + (b + rest)
  {
  }

  lemma Concat3(a: bytes, b: bytes, c: bytes, rest: bytes)
    ensures a + b + c + rest == a + (b + (c + rest))
  {
  }

  lemma Concat4(a: bytes, b: bytes, c: bytes, d: bytes, rest: bytes)
    ensures a + b + c + d + rest == a + (b + (c + (d + rest)))
  {
  }

  lemma Concat6(a: bytes, b: bytes, c: bytes, d: bytes, e: bytes, f: bytes, rest: bytes)
    ensures a + b + c + d + e + f + rest == a + (b + (c + (d + (e + (f + rest)))))
  {
  }

  lemma Concat7(a: bytes, b: bytes, c: bytes, d: bytes, e: bytes, f: bytes, g: bytes, rest: bytes)
    ensures a + b + c + d + e + f + g + rest == a + (b + (c + (d + (e + (f + (g + rest))))))
  {
  }

  // ---------------------------------------------------------------- raw bytes

  function ReadByte(s: bytes): Result<(byte, bytes)> {
    if |s| == 0 then Err(Truncated) else Ok((s[0], s[1..]))
  }

  function ReadBytes(n: nat, s: bytes): Result<(bytes, bytes)> {
    if |s| < n then Err(Truncated) else Ok((s[..n], s[n..]))
  }

  function DecodeU8(s: bytes): Result<(byte, bytes)> {
    ReadByte(s)
  }

  function EncodeU8(b: byte): Result<bytes> {
    Ok([b])
  }

  function DecodeBool(s: bytes): (r: Result<(bool, bytes)>)
    ensures r.Ok? <==> |s| > 0 && s[0] < 2
    ensures r.Ok? ==> r.value == (s[0] == 1, s[1..])
    ensures |s| > 0 && s[0] >= 2 ==> r == Err(InvalidBool(s[0]))
  {
    var h :- ReadByte(s);
    if h.0 == 0 then Ok((false, h.1))
    else if h.0 == 1 then Ok((true, h.1))
    else Err(InvalidBool(h.0))
  }

  function EncodeBool(b: bool): bytes {
    if b then [1] else [0]
  }

  // ---------------------------------------------------------------- little-endian integers

  function Pow256(k: nat): (r: nat)
    ensures r > 0
  {
    if k == 0 then 1 else 256 * Pow256(k - 1)
  }

  lemma Pow256Two()
    ensures Pow256(2) == 0x1_0000
  {
  }

  lemma Pow256Four()
    ensures Pow256(4) == 0x1_0000_0000
  {
  }

  lemma Pow256Sixteen()
    ensures Pow256(16) == 0x1_0000_0000_0000_0000_0000_0000_0000_0000
  {
    assert Pow256(4) == 0x1_0000_0000;
    assert Pow256(8) == 0x1_0000_0000_0000_0000;
    assert Pow256(12) == 0x1_0000_0000_0000_0000_0000_0000;
  }

  lemma Pow256Three()
    ensures Pow256(3) == 0x100_0000
  {
  }

  /** The value of a little-endian byte string. */
  function LeValue(b: bytes): nat {
    if |b| == 0 then 0 else b[0] + 256 * LeValue(b[1..])
  }

  lemma {:induction false} LeValueBound(b: bytes)
    ensures LeValue(b) < Pow256(|b|)
  {
    if |b| > 0 {
      LeValueBound(b[1..]);
      assert LeValue(b[1..]) <= Pow256(|b| - 1) - 1;
      assert 256 * LeValue(b[1..]) <= 256 * Pow256(|b| - 1) - 256;
    }
  }

  /** The k low-order bytes of v, least significant first. */
  function LeBytes(v: nat, k: nat): (r: bytes)
    ensures |r| == k
  {
    if k == 0 then [] else [v % 256] + LeBytes(v / 256, k - 1)
  }

  lemma {:induction false} LeRoundTrip(v: nat, k: nat)
    requires v < Pow256(k)
    ensures LeValue(LeBytes(v, k)) == v
  {
    if k > 0 {
      var b := LeBytes(v, k);
      assert b[1..] == LeBytes(v / 256, k - 1);
      assert v / 256 < Pow256(k - 1) by {
        assert v < 256 * Pow256(k - 1);
      }
      LeRoundTrip(v / 256, k - 1);
    }
  }

  function DecodeU32(s: bytes): (r: Result<(u32, bytes)>)
    ensures r.Ok? <==> |s| >= 4
    ensures r.Ok? ==> r.value.1 == s[4..]
  {
    var t :- ReadBytes(4, s);
    LeValueBound(t.0);
    Pow256Four();
    Ok((LeValue(t.0), t.1))
  }

  function EncodeU32(n: u32): Result<bytes> {
    Ok(LeBytes(n, 4))
  }

  function DecodeU128(s: bytes): (r: Result<(u128, bytes)>)
    ensures r.Ok? <==> |s| >= 16
    ensures r.Ok? ==> r.value.1 == s[16..]
  {
    var t :- ReadBytes(16, s);
    LeValueBound(t.0);
    Pow256Sixteen();
    Ok((LeValue(t.0), t.1))
  }

  function EncodeU128(n: u128): Result<bytes> {
    Ok(LeBytes(n, 16))
  }

  lemma U32RoundTrip(n: u32, rest: bytes)
    ensures DecodeU32(EncodeU32(n).value + rest) == Ok((n, rest))
  {
    Pow256Four();
    LeRoundTrip(n, 4);
    var b := LeBytes(n, 4);
    assert (b + rest)[..4] == b && (b + rest)[4..] == rest;
  }

  lemma U128RoundTrip(n: u128, rest: bytes)
    ensures DecodeU128(EncodeU128(n).value + rest) == Ok((n, rest))
  {
    Pow256Sixteen();
    LeRoundTrip(n, 16);
    var b := LeBytes(n, 16);
    assert (b + rest)[..16] == b && (b + rest)[16..] == rest;
  }

  // ---------------------------------------------------------------- compact integers

  /** Largest payload of the compact big-integer mode: the length byte holds len - 4 in six bits. */
  const CompactMaxBytes: nat := 67

  /** Number of significant bytes of n (0 for n == 0). */
  function ByteLen(n: nat): nat {
    if n == 0 then 0 else 1 + ByteLen(n / 256)
  }

  lemma {:induction false} ByteLenBound(n: nat)
    ensures n < Pow256(ByteLen(n))
  {
    if n > 0 {
      ByteLenBound(n / 256);
    }
  }

  lemma {:induction false} ByteLenAtMost(n: nat, k: nat)
    requires n < Pow256(k)
    ensures ByteLen(n) <= k
  {
    if n > 0 {
      assert n / 256 < Pow256(k - 1);
      ByteLenAtMost(n / 256, k - 1);
    }
  }

  lemma {:induction false} ByteLenAtLeast(n: nat, k: nat)
    requires Pow256(k) <= n
    ensures ByteLen(n) > k
  {
    if k > 0 {
      assert Pow256(k - 1) <= n / 256;
      ByteLenAtLeast(n / 256, k - 1);
    }
  }

  /** Total bytes a compact integer occupies, read off its first byte. */
  function CompactWidth(first: byte): nat {
    var mode := first % 4;
    if mode == 0 then 1 else if mode == 1 then 2 else if mode == 2 then 4 else 1 + first / 4 + 4
  }

  function DecodeCompact(s: bytes): (r: Result<(nat, bytes)>)
    ensures |s| == 0 ==> r == Err(Truncated)
    ensures r.Ok? <==> |s| > 0 && |s| >= CompactWidth(s[0])
    ensures r.Ok? ==> r.value.1 == s[CompactWidth(s[0])..]
  {
    var h :- ReadByte(s);
    var w := CompactWidth(h.0);
    assert |s| >= w ==> s[1..][w - 1..] == s[w..];
    DecodeCompactAfter(h.0, h.1)
  }

  /** The rest of a compact integer once its first byte `b` is read: the two low bits of `b`
      select a one-, two-, four-byte or length-prefixed big-integer form. */
  function DecodeCompactAfter(b: byte, t: bytes): (r: Result<(nat, bytes)>)
    ensures r.Ok? <==> |t| >= CompactWidth(b) - 1
    ensures r.Ok? ==> r.value.1 == t[CompactWidth(b) - 1..]
  {
    var mode := b % 4;
    if mode == 0 then Ok((b / 4, t))
    else if mode == 1 then
      var p :- ReadBytes(1, t);
      Ok((LeValue([b] + p.0) / 4, p.1))
    else if mode == 2 then
      var p :- ReadBytes(3, t);
      Ok((LeValue([b] + p.0) / 4, p.1))
    else
      var p :- ReadBytes(b / 4 + 4, t);
      Ok((LeValue(p.0), p.1))
  }

  function EncodeCompact(n: nat): (r: Result<bytes>)
    ensures r.Ok? <==> ByteLen(n) <= CompactMaxBytes
    ensures r.Err? ==> r.error == CompactTooLarge(n)
  {
    if n < 0x4000_0000 then
      assert Pow256(4) == 0x1_0000_0000;
      ByteLenAtMost(n, 4);
      if n < 64 then Ok([n * 4])
      else if n < 0x4000 then Ok(LeBytes(n * 4 + 1, 2))
      else Ok(LeBytes(n * 4 + 2, 4))
    else
      var k := ByteLen(n);
      if k > CompactMaxBytes then Err(CompactTooLarge(n))
      else
        ByteLenAtLeast(n, 3);
        Ok([(k - 4) * 4 + 3] + LeBytes(n, k))
  }

  /** Reading the first byte off `[b] + t` leaves `t`. */
  lemma DecodeCompactHead(b: byte, t: bytes)
    ensures DecodeCompact([b] + t) == DecodeCompactAfter(b, t)
  {
    assert ([b] + t)[0] == b && ([b] + t)[1..] == t;
  }

  /** The low two bits of a value survive truncation to its low byte. */
  lemma {:induction false} LowByteMode(v: nat)
    ensures (v % 256) % 4 == v % 4
  {
    if v >= 256 {
      LowByteMode(v - 256);
    }
  }

  /** A k-byte little-endian encoding splits into its low byte and the rest. */
  lemma LeBytesHead(v: nat, k: nat)
    requires k > 0
    ensures LeBytes(v, k) == [v % 256] + LeBytes(v / 256, k - 1)
  {
  }

  /** A multi-byte compact form: the value with its mode in the two low bits, little-endian over
      `k` bytes, read back after its first byte. */
  lemma DecodeLeMode(v: nat, k: nat, rest: bytes)
    requires k == 2 || k == 4
    requires v < Pow256(k) && v % 4 == (if k == 2 then 1 else 2)
    ensures DecodeCompact(LeBytes(v, k) + rest) == Ok((v / 4, rest))
  {
    var lo := v % 256;
    var tail := LeBytes(v / 256, k - 1);
    LeBytesHead(v, k);
    Concat2([lo], tail, rest);
    DecodeCompactHead(lo, tail + rest);
    LowByteMode(v);
    assert (tail + rest)[..k - 1] == tail && (tail + rest)[k - 1..] == rest;
    LeRoundTrip(v, k);
  }

  lemma CompactRoundTripTwo(n: nat, rest: bytes)
    requires 64 <= n < 0x4000
    ensures DecodeCompact(LeBytes(n * 4 + 1, 2) + rest) == Ok((n, rest))
  {
    Pow256Two();
    DecodeLeMode(n * 4 + 1, 2, rest);
  }

  lemma CompactRoundTripFour(n: nat, rest: bytes)
    requires 0x4000 <= n < 0x4000_0000
    ensures DecodeCompact(LeBytes(n * 4 + 2, 4) + rest) == Ok((n, rest))
  {
    Pow256Four();
    DecodeLeMode(n * 4 + 2, 4, rest);
  }

  /** The big-integer mode's length byte: the payload length less four, in the upper six bits. */
  lemma BigModeHeader(k: nat)
    requires 4 <= k <= CompactMaxBytes
    ensures 0 <= (k - 4) * 4 + 3 < 256
    ensures ((k - 4) * 4 + 3) % 4 == 3 && ((k - 4) * 4 + 3) / 4 + 4 == k
  {
  }

  /** The big-integer mode: a length byte holding the payload length less four, then the
      significant bytes of n. */
  lemma EncodeCompactBig(n: nat)
    requires 0x4000_0000 <= n && ByteLen(n) <= CompactMaxBytes
    ensures 4 <= ByteLen(n)
    ensures EncodeCompact(n) == Ok([(ByteLen(n) - 4) * 4 + 3] + LeBytes(n, ByteLen(n)))
  {
    Pow256Three();
    ByteLenAtLeast(n, 3);
  }

  lemma DecodeBigPayload(h: byte, e: bytes, rest: bytes)
    requires h % 4 == 3 && h / 4 + 4 == |e|
    ensures DecodeCompact([h] + e + rest) == Ok((LeValue(e), rest))
  {
    Concat2([h], e, rest);
    DecodeCompactHead(h, e + rest);
    assert (e + rest)[..|e|] == e;
    assert (e + rest)[|e|..] == rest;
  }

  lemma CompactRoundTripBig(n: nat, rest: bytes)
    requires 0x4000_0000 <= n && ByteLen(n) <= CompactMaxBytes
    ensures EncodeCompact(n).Ok? && DecodeCompact(EncodeCompact(n).value + rest) == Ok((n, rest))
  {
    var k := ByteLen(n);
    EncodeCompactBig(n);
    BigModeHeader(k);
    ByteLenBound(n);
    LeRoundTrip(n, k);
    DecodeBigPayload((k - 4) * 4 + 3, LeBytes(n, k), rest);
  }

  lemma CompactRoundTrip(n: nat, rest: bytes)
    ensures RoundTripsAt(EncodeCompact, DecodeCompact, n, rest)
  {
    if EncodeCompact(n).Ok? {
      if n < 64 {
        DecodeCompactHead(n * 4, rest);
      } else if n < 0x4000 {
        assert EncodeCompact(n).value == LeBytes(n * 4 + 1, 2);
        CompactRoundTripTwo(n, rest);
      } else if n < 0x4000_0000 {
        assert EncodeCompact(n).value == LeBytes(n * 4 + 2, 4);
        CompactRoundTripFour(n, rest);
      } else {
        CompactRoundTripBig(n, rest);
      }
    }
  }

  // ---------------------------------------------------------------- text and byte blobs

  /** Text and Bytes share one wire form: a compact length, then the raw bytes. */
  function DecodeText(s: bytes): Result<(Text, bytes)> {
    var n :- DecodeCompact(s);
    ReadBytes(n.0, n.1)
  }

  function EncodeText(t: Text): Result<bytes> {
    var n :- EncodeCompact(|t|);
    Ok(n + t)
  }

  lemma DecodeTextAfter(n: bytes, t: Text, rest: bytes)
    requires DecodeCompact(n + (t + rest)) == Ok((|t|, t + rest))
    ensures DecodeText(n + t + rest) == Ok((t, rest))
  {
    Concat2(n, t, rest);
    assert (t + rest)[..|t|] == t && (t + rest)[|t|..] == rest;
  }

  lemma TextRoundTrip(t: Text, rest: bytes)
    ensures RoundTripsAt(EncodeText, DecodeText, t, rest)
  {
    if EncodeText(t).Ok? {
      var n := EncodeCompact(|t|).value;
      CompactRoundTrip(|t|, t + rest);
      DecodeTextAfter(n, t, rest);
    }
  }

  /** A zero byte is the compact integer 0: an empty text, an empty sequence. */
  lemma ZeroPrefix<T>(dec: Decoder<T>, s: bytes)
    requires |s| > 0 && s[0] == 0
    ensures DecodeCompact(s) == Ok((0, s[1..]))
    ensures DecodeText(s) == Ok(([], s[1..]))
    ensures DecodeSeq(dec, s) == Ok(([], s[1..]))
  {
    assert s[1..][..0] == [];
  }

  // ---------------------------------------------------------------- options

  /** A one-byte presence flag, then the payload only when present. */
  function DecodeOption<T>(dec: Decoder<T>, s: bytes): (r: Result<(Option<T>, bytes)>)
    ensures |s| > 0 && s[0] == 0 ==> r == Ok((None, s[1..]))
    ensures |s| > 0 && s[0] >= 2 ==> r == Err(InvalidOptionPrefix(s[0]))
  {
    var h :- ReadByte(s);
    if h.0 == 0 then Ok((None, h.1))
    else if h.0 == 1 then
      var p :- dec(h.1);
      Ok((Some(p.0), p.1))
    else Err(InvalidOptionPrefix(h.0))
  }

  function EncodeOption<T>(enc: Encoder<T>, o: Option<T>): Result<bytes> {
    match o
    case None => Ok([0])
    case Some(x) =>
      var b :- enc(x);
      Ok([1] + b)
  }

  lemma OptionRoundTrip<T>(enc: Encoder<T>, dec: Decoder<T>, o: Option<T>, rest: bytes)
    requires o.Some? ==> RoundTripsAt(enc, dec, o.value, rest)
    ensures EncodeOption(enc, o).Ok? ==> DecodeOption(dec, EncodeOption(enc, o).value + rest) == Ok((o, rest))
  {
    if o.Some? && EncodeOption(enc, o).Ok? {
      var b := enc(o.value).value;
      assert EncodeOption(enc, o).value + rest == [1] + (b + rest);
    }
  }

  // ---------------------------------------------------------------- flag-gated payloads

  /** A boolean flag, then the payload only when the flag is set; an unset flag leaves
      the payload at `absent`, the zero value of the Go field it fills. */
  function DecodeGated<T>(dec: Decoder<T>, absent: T, s: bytes): (r: Result<((bool, T), bytes)>)
    ensures r.Ok? ==> |s| > 0 && (r.value.0.0 <==> s[0] == 1)
    ensures r.Ok? && !r.value.0.0 ==> r.value == ((false, absent), s[1..])
    ensures r.Ok? && r.value.0.0 ==> dec(s[1..]) == Ok((r.value.0.1, r.value.1))
  {
    var f :- DecodeBool(s);
    if f.0 then
      var p :- dec(f.1);
      Ok(((true, p.0), p.1))
    else Ok(((false, absent), f.1))
  }

  lemma GatedUnset<T>(dec: Decoder<T>, absent: T, s: bytes)
    requires |s| > 0 && s[0] == 0
    ensures DecodeGated(dec, absent, s) == Ok(((false, absent), s[1..]))
  {
  }

  function EncodeGated<T>(enc: Encoder<T>, flag: bool, x: T): Result<bytes> {
    if flag then
      var b :- enc(x);
      Ok([1] + b)
    else Ok([0])
  }

  lemma GatedRoundTrip<T>(enc: Encoder<T>, dec: Decoder<T>, absent: T, flag: bool, x: T, rest: bytes)
    requires !flag ==> x == absent
    requires flag ==> RoundTripsAt(enc, dec, x, rest)
    ensures EncodeGated(enc, flag, x).Ok? ==>
              DecodeGated(dec, absent, EncodeGated(enc, flag, x).value + rest) == Ok(((flag, x), rest))
  {
    if flag && EncodeGated(enc, flag, x).Ok? {
      var b := enc(x).value;
      assert EncodeGated(enc, flag, x).value + rest == [1] + (b + rest);
    }
  }

  // ---------------------------------------------------------------- sequences

  function DecodeItems<T>(dec: Decoder<T>, n: nat, s: bytes): (r: Result<(seq<T>, bytes)>)
    ensures r.Ok? ==> |r.value.0| == n
    decreases n
  {
    if n == 0 then Ok(([], s))
    else
      var p :- dec(s);
      var q :- DecodeItems(dec, n - 1, p.1);
      Ok(([p.0] + q.0, q.1))
  }

  /** A compact element count, then the elements in order. */
  function DecodeSeq<T>(dec: Decoder<T>, s: bytes): Result<(seq<T>, bytes)> {
    var n :- DecodeCompact(s);
    DecodeItems(dec, n.0, n.1)
  }

  function EncodeItems<T>(enc: Encoder<T>, xs: seq<T>): Result<bytes> {
    if |xs| == 0 then Ok([])
    else
      var a :- enc(xs[0]);
      var b :- EncodeItems(enc, xs[1..]);
      Ok(a + b)
  }

  function EncodeSeq<T>(enc: Encoder<T>, xs: seq<T>): Result<bytes> {
    var n :- EncodeCompact(|xs|);
    var b :- EncodeItems(enc, xs);
    Ok(n + b)
  }

  lemma {:induction false} ItemsRoundTrip<T>(enc: Encoder<T>, dec: Decoder<T>, xs: seq<T>, rest: bytes)
    requires forall x, r :: x in xs ==> RoundTripsAt(enc, dec, x, r)
    ensures EncodeItems(enc, xs).Ok? ==> DecodeItems(dec, |xs|, EncodeItems(enc, xs).value + rest) == Ok((xs, rest))
  {
    if |xs| > 0 && EncodeItems(enc, xs).Ok? {
      var a := enc(xs[0]).value;
      var b := EncodeItems(enc, xs[1..]).value;
      assert forall x, r :: x in xs[1..] ==> RoundTripsAt(enc, dec, x, r) by {
        forall x, r | x in xs[1..] ensures RoundTripsAt(enc, dec, x, r) {
          assert x in xs;
        }
      }
      ItemsRoundTrip(enc, dec, xs[1..], rest);
      assert RoundTripsAt(enc, dec, xs[0], b + rest);
      assert EncodeItems(enc, xs).value + rest == a + (b + rest);
      assert dec(a + (b + rest)) == Ok((xs[0], b + rest));
      assert DecodeItems(dec, |xs| - 1, b + rest) == Ok((xs[1..], rest));
      assert [xs[0]] + xs[1..] == xs;
      assert DecodeItems(dec, |xs|, a + (b + rest)) == Ok(([xs[0]] + xs[1..], rest));
    } else if |xs| == 0 {
      assert [] + rest == rest;
    }
  }

  lemma SeqRoundTrip<T>(enc: Encoder<T>, dec: Decoder<T>, xs: seq<T>, rest: bytes)
    requires forall x, r :: x in xs ==> RoundTripsAt(enc, dec, x, r)
    ensures EncodeSeq(enc, xs).Ok? ==> DecodeSeq(dec, EncodeSeq(enc, xs).value + rest) == Ok((xs, rest))
  {
    if EncodeSeq(enc, xs).Ok? {
      var n := EncodeCompact(|xs|).value;
      var b := EncodeItems(enc, xs).value;
      Concat2(n, b, rest);
      CompactRoundTrip(|xs|, b + rest);
      ItemsRoundTrip(enc, dec, xs, rest);
    }
  }

  /** Every element a decoder reads satisfies whatever each of its single decodes does. */
  lemma {:induction false} DecodedItemsSatisfy<T>(dec: Decoder<T>, P: T -> bool, n: nat, s: bytes)
    requires forall s' :: dec(s').Ok? ==> P(dec(s').value.0)
    ensures DecodeItems(dec, n, s).Ok? ==> forall x :: x in DecodeItems(dec, n, s).value.0 ==> P(x)
    decreases n
  {
    if n > 0 && DecodeItems(dec, n, s).Ok? {
      var p := dec(s).value;
      DecodedItemsSatisfy(dec, P, n - 1, p.1);
      assert DecodeItems(dec, n, s).value.0 == [p.0] + DecodeItems(dec, n - 1, p.1).value.0;
    }
  }

  lemma DecodedSeqSatisfies<T>(dec: Decoder<T>, P: T -> bool, s: bytes)
    requires forall s' :: dec(s').Ok? ==> P(dec(s').value.0)
    ensures DecodeSeq(dec, s).Ok? ==> forall x :: x in DecodeSeq(dec, s).value.0 ==> P(x)
  {
    if DecodeCompact(s).Ok? {
      var n := DecodeCompact(s).value;
      DecodedItemsSatisfy(dec, P, n.0, n.1);
    }
  }

  /** Documentation lists, paths and the like: a sequence of texts. */
  function DecodeTexts(s: bytes): Result<(seq<Text>, bytes)> {
    DecodeSeq(DecodeText, s)
  }

  function EncodeTexts(ts: seq<Text>): Result<bytes> {
    EncodeSeq(EncodeText, ts)
  }

  lemma TextsRoundTrip(ts: seq<Text>, rest: bytes)
    ensures RoundTripsAt(EncodeTexts, DecodeTexts, ts, rest)
  {
    forall x, r | x in ts ensures RoundTripsAt(EncodeText, DecodeText, x, r) {
      TextRoundTrip(x, r);
    }
    SeqRoundTrip(EncodeText, DecodeText, ts, rest);
  }
}
