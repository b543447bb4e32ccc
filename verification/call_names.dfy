/** The textual forms a call is named by: the "Module.function" path that `strings.Split(call, ".")`
    takes apart, and the four hex digits that render a two-byte call index. */
module CallNames {
  import opened Scale

  const Dot: byte := 0x2E

  /** A call's two-byte index: the pallet (module) index, then the call's index within it. */
  datatype CallIndex = CallIndex(sectionIndex: byte, methodIndex: byte)

  /** The bytes before the first '.', or all of `s` when it has none. */
  function FirstSegment(s: Text): (r: Text)
    ensures r <= s
    ensures Dot !in r
    ensures |r| < |s| ==> s[|r|] == Dot
  {
    if |s| == 0 || s[0] == Dot then [] else [s[0]] + FirstSegment(s[1..])
  }

  /** The first two elements of `strings.Split(call, ".")`: the first always exists, the second
      only when `call` contains a '.'. */
  function SplitCall(call: Text): (Text, Option<Text>) {
    var head := FirstSegment(call);
    if |head| == |call| then (head, None)
    else (head, Some(FirstSegment(call[|head| + 1..])))
  }

  /** `fmt.Sprintf("%s.%s", module, fn)`. */
  function JoinCall(moduleName: Text, fn: Text): Text {
    moduleName + [Dot] + fn
  }

  lemma {:induction false} FirstSegmentOfJoin(a: Text, b: Text)
    requires Dot !in a
    ensures FirstSegment(a + [Dot] + b) == a
  {
    if |a| > 0 {
      assert (a + [Dot] + b)[1..] == a[1..] + [Dot] + b;
      FirstSegmentOfJoin(a[1..], b);
    }
  }

  lemma {:induction false} FirstSegmentWhole(a: Text)
    requires Dot !in a
    ensures FirstSegment(a) == a
  {
    if |a| > 0 {
      FirstSegmentWhole(a[1..]);
    }
  }

  /** Splitting a joined name gives back its two parts when neither contains a '.'. */
  lemma SplitJoin(moduleName: Text, fn: Text)
    requires Dot !in moduleName && Dot !in fn
    ensures SplitCall(JoinCall(moduleName, fn)) == (moduleName, Some(fn))
  {
    var call := JoinCall(moduleName, fn);
    FirstSegmentOfJoin(moduleName, fn);
    assert call[|moduleName| + 1..] == fn;
    FirstSegmentWhole(fn);
  }

  /** A name without a '.' has no second segment. */
  lemma SplitWithoutDot(call: Text)
    requires Dot !in call
    ensures SplitCall(call) == (call, None)
  {
    FirstSegmentWhole(call);
  }

  // ---------------------------------------------------------------- hex (encoding/hex)

  /** Value of one hex digit, either case, as `hex.DecodeString` accepts it. */
  function HexDigit(c: byte): Option<nat> {
    if 0x30 <= c <= 0x39 then Some(c - 0x30)
    else if 0x61 <= c <= 0x66 then Some(c - 0x61 + 10)
    else if 0x41 <= c <= 0x46 then Some(c - 0x41 + 10)
    else None
  }

  function DecodeHex(s: Text): (r: Option<bytes>)
    ensures r.Some? ==> 2 * |r.value| == |s|
  {
    if |s| == 0 then Some([])
    else if |s| == 1 then None
    else
      match (HexDigit(s[0]), HexDigit(s[1]))
      case (Some(hi), Some(lo)) =>
        (match DecodeHex(s[2..])
         case Some(tail) => Some([hi * 16 + lo] + tail)
         case None => None)
      case _ => None
  }

  function LowerHexDigit(v: nat): byte
    requires v < 16
  {
    if v < 10 then 0x30 + v else 0x61 + v - 10
  }

  /** Lower-case hex rendering, two digits per byte. */
  function EncodeHex(b: bytes): (r: Text)
    ensures |r| == 2 * |b|
  {
    if |b| == 0 then [] else [LowerHexDigit(b[0] / 16), LowerHexDigit(b[0] % 16)] + EncodeHex(b[1..])
  }

  lemma {:induction false} HexRoundTrip(b: bytes)
    ensures DecodeHex(EncodeHex(b)) == Some(b)
  {
    if |b| > 0 {
      var s := EncodeHex(b);
      assert s[2..] == EncodeHex(b[1..]);
      HexRoundTrip(b[1..]);
      assert HexDigit(s[0]) == Some(b[0] / 16);
      assert HexDigit(s[1]) == Some(b[0] % 16);
      assert [b[0]] + b[1..] == b;
    }
  }
}
