/** The storage-query shim of the state RPC: the "empty means absent" rule of GetStorage and
    GetStorageLatest, and GetStorageAccountInfo, which tells the three historical layouts of
    an account record apart by their byte length alone and normalises each into one
    AccountInfo.

    Fetching the raw bytes (the RPC call, its block hash and the hex decoding of the reply) is
    outside the model: each operation takes the fetch's outcome as a parameter. */
module StateStorage {
  import opened Scale

  /** The balances of an account: four little-endian 128-bit amounts. */
  datatype AccountData = AccountData(free: u128, reserved: u128, miscFrozen: u128, freeFrozen: u128)

  /** The normalised record every layout is mapped into. */
  datatype AccountInfo = AccountInfo(nonce: u32, consumers: u32, providers: u32, data: AccountData)

  /** The 80-byte layout: nonce, consumers, providers, sufficients, data. */
  datatype AccountInfoWithTripleRefCount = AccountInfoWithTripleRefCount(
    nonce: u32, consumers: u32, providers: u32, sufficients: u32, data: AccountData)

  /** The 76-byte layout: nonce, consumers, providers, data. */
  datatype AccountInfoWithProviders = AccountInfoWithProviders(nonce: u32, consumers: u32, providers: u32, data: AccountData)

  /** The 72-byte layout: nonce, a single reference count, data. */
  datatype AccountInfoOld = AccountInfoOld(nonce: u32, refcount: u32, data: AccountData)

  // ---------------------------------------------------------------- fixed-width layouts

  function DecodeAccountData(s: bytes): (r: Result<(AccountData, bytes)>)
    ensures r.Ok? <==> |s| >= 64
    ensures r.Ok? ==>
      && r.value.0.free == LeValue(s[0..16])
      && r.value.0.reserved == LeValue(s[16..32])
      && r.value.0.miscFrozen == LeValue(s[32..48])
      && r.value.0.freeFrozen == LeValue(s[48..64])
      && r.value.1 == s[64..]
  {
    var free :- DecodeU128(s);
    var reserved :- DecodeU128(free.1);
    var miscFrozen :- DecodeU128(reserved.1);
    var freeFrozen :- DecodeU128(miscFrozen.1);
    assert s[16..][..16] == s[16..32] && s[32..][..16] == s[32..48] && s[48..][..16] == s[48..64];
    Ok((AccountData(free.0, reserved.0, miscFrozen.0, freeFrozen.0), freeFrozen.1))
  }

  function EncodeAccountData(d: AccountData): (r: bytes)
    ensures |r| == 64
  {
    LeBytes(d.free, 16) + LeBytes(d.reserved, 16) + LeBytes(d.miscFrozen, 16) + LeBytes(d.freeFrozen, 16)
  }

  lemma AccountDataRoundTrip(d: AccountData, rest: bytes)
    ensures DecodeAccountData(EncodeAccountData(d) + rest) == Ok((d, rest))
  {
    Pow256Sixteen();
    var s := EncodeAccountData(d) + rest;
    assert s[0..16] == LeBytes(d.free, 16);
    assert s[16..32] == LeBytes(d.reserved, 16);
    assert s[32..48] == LeBytes(d.miscFrozen, 16);
    assert s[48..64] == LeBytes(d.freeFrozen, 16);
    LeRoundTrip(d.free, 16);
    LeRoundTrip(d.reserved, 16);
    LeRoundTrip(d.miscFrozen, 16);
    LeRoundTrip(d.freeFrozen, 16);
    assert s[64..] == rest;
  }

  function DecodeTripleRefCount(s: bytes): (r: Result<(AccountInfoWithTripleRefCount, bytes)>)
    ensures r.Ok? <==> |s| >= 80
    ensures r.Ok? ==>
      && r.value.0.nonce == LeValue(s[0..4])
      && r.value.0.consumers == LeValue(s[4..8])
      && r.value.0.providers == LeValue(s[8..12])
      && r.value.0.sufficients == LeValue(s[12..16])
      && DecodeAccountData(s[16..]) == Ok((r.value.0.data, r.value.1))
  {
    var nonce :- DecodeU32(s);
    var consumers :- DecodeU32(nonce.1);
    var providers :- DecodeU32(consumers.1);
    var sufficients :- DecodeU32(providers.1);
    var data :- DecodeAccountData(sufficients.1);
    assert s[4..][..4] == s[4..8] && s[8..][..4] == s[8..12] && s[12..][..4] == s[12..16];
    Ok((AccountInfoWithTripleRefCount(nonce.0, consumers.0, providers.0, sufficients.0, data.0), data.1))
  }

  function EncodeTripleRefCount(a: AccountInfoWithTripleRefCount): (r: bytes)
    ensures |r| == 80
  {
    LeBytes(a.nonce, 4) + LeBytes(a.consumers, 4) + LeBytes(a.providers, 4) + LeBytes(a.sufficients, 4) + EncodeAccountData(a.data)
  }

  lemma TripleRefCountRoundTrip(a: AccountInfoWithTripleRefCount, rest: bytes)
    ensures DecodeTripleRefCount(EncodeTripleRefCount(a) + rest) == Ok((a, rest))
  {
    Pow256Four();
    var s := EncodeTripleRefCount(a) + rest;
    assert s[0..4] == LeBytes(a.nonce, 4);
    assert s[4..8] == LeBytes(a.consumers, 4);
    assert s[8..12] == LeBytes(a.providers, 4);
    assert s[12..16] == LeBytes(a.sufficients, 4);
    assert s[16..] == EncodeAccountData(a.data) + rest;
    LeRoundTrip(a.nonce, 4);
    LeRoundTrip(a.consumers, 4);
    LeRoundTrip(a.providers, 4);
    LeRoundTrip(a.sufficients, 4);
    AccountDataRoundTrip(a.data, rest);
  }

  function DecodeWithProviders(s: bytes): (r: Result<(AccountInfoWithProviders, bytes)>)
    ensures r.Ok? <==> |s| >= 76
    ensures r.Ok? ==>
      && r.value.0.nonce == LeValue(s[0..4])
      && r.value.0.consumers == LeValue(s[4..8])
      && r.value.0.providers == LeValue(s[8..12])
      && DecodeAccountData(s[12..]) == Ok((r.value.0.data, r.value.1))
  {
    var nonce :- DecodeU32(s);
    var consumers :- DecodeU32(nonce.1);
    var providers :- DecodeU32(consumers.1);
    var data :- DecodeAccountData(providers.1);
    assert s[4..][..4] == s[4..8] && s[8..][..4] == s[8..12];
    Ok((AccountInfoWithProviders(nonce.0, consumers.0, providers.0, data.0), data.1))
  }

  function EncodeWithProviders(a: AccountInfoWithProviders): (r: bytes)
    ensures |r| == 76
  {
    LeBytes(a.nonce, 4) + LeBytes(a.consumers, 4) + LeBytes(a.providers, 4) + EncodeAccountData(a.data)
  }

  lemma WithProvidersRoundTrip(a: AccountInfoWithProviders, rest: bytes)
    ensures DecodeWithProviders(EncodeWithProviders(a) + rest) == Ok((a, rest))
  {
    Pow256Four();
    var s := EncodeWithProviders(a) + rest;
    assert s[0..4] == LeBytes(a.nonce, 4);
    assert s[4..8] == LeBytes(a.consumers, 4);
    assert s[8..12] == LeBytes(a.providers, 4);
    assert s[12..] == EncodeAccountData(a.data) + rest;
    LeRoundTrip(a.nonce, 4);
    LeRoundTrip(a.consumers, 4);
    LeRoundTrip(a.providers, 4);
    AccountDataRoundTrip(a.data, rest);
  }

  function DecodeOld(s: bytes): (r: Result<(AccountInfoOld, bytes)>)
    ensures r.Ok? <==> |s| >= 72
    ensures r.Ok? ==>
      && r.value.0.nonce == LeValue(s[0..4])
      && r.value.0.refcount == LeValue(s[4..8])
      && DecodeAccountData(s[8..]) == Ok((r.value.0.data, r.value.1))
  {
    var nonce :- DecodeU32(s);
    var refcount :- DecodeU32(nonce.1);
    var data :- DecodeAccountData(refcount.1);
    assert s[4..][..4] == s[4..8];
    Ok((AccountInfoOld(nonce.0, refcount.0, data.0), data.1))
  }

  function EncodeOld(a: AccountInfoOld): (r: bytes)
    ensures |r| == 72
  {
    LeBytes(a.nonce, 4) + LeBytes(a.refcount, 4) + EncodeAccountData(a.data)
  }

  lemma OldRoundTrip(a: AccountInfoOld, rest: bytes)
    ensures DecodeOld(EncodeOld(a) + rest) == Ok((a, rest))
  {
    Pow256Four();
    var s := EncodeOld(a) + rest;
    assert s[0..4] == LeBytes(a.nonce, 4);
    assert s[4..8] == LeBytes(a.refcount, 4);
    assert s[8..] == EncodeAccountData(a.data) + rest;
    LeRoundTrip(a.nonce, 4);
    LeRoundTrip(a.refcount, 4);
    AccountDataRoundTrip(a.data, rest);
  }

  // ---------------------------------------------------------------- normalisation

  /** The triple-refcount layout keeps all but its sufficients count. */
  function FromTripleRefCount(a: AccountInfoWithTripleRefCount): AccountInfo {
    AccountInfo(a.nonce, a.consumers, a.providers, a.data)
  }

  function FromWithProviders(a: AccountInfoWithProviders): AccountInfo {
    AccountInfo(a.nonce, a.consumers, a.providers, a.data)
  }

  /** The old layout's single reference count becomes the consumers count, with no providers. */
  function FromOld(a: AccountInfoOld): AccountInfo {
    AccountInfo(a.nonce, a.refcount, 0, a.data)
  }

  /** GetStorageAccountInfo: a failed fetch fails with its error; no bytes at all fail; 80, 76
      and 72 bytes are read as the triple-refcount, providers and old layouts and normalised;
      any other length fails naming it. */
  function GetStorageAccountInfo(fetched: Result<bytes>): (r: Result<AccountInfo>)
    ensures fetched.Err? ==> r == Err(fetched.error)
    ensures fetched.Ok? ==> (r.Ok? <==> |fetched.value| in {80, 76, 72})
    ensures fetched.Ok? && |fetched.value| == 0 ==> r == Err(EmptyAccountInfo)
    ensures fetched.Ok? && |fetched.value| !in {0, 80, 76, 72} ==> r == Err(AccountInfoLength(|fetched.value|))
    ensures fetched.Ok? && |fetched.value| == 80 ==>
      var raw := fetched.value;
      && r.value.nonce == LeValue(raw[0..4])
      && r.value.consumers == LeValue(raw[4..8])
      && r.value.providers == LeValue(raw[8..12])
      && DecodeAccountData(raw[16..]) == Ok((r.value.data, []))
    ensures fetched.Ok? && |fetched.value| == 76 ==>
      var raw := fetched.value;
      && r.value.nonce == LeValue(raw[0..4])
      && r.value.consumers == LeValue(raw[4..8])
      && r.value.providers == LeValue(raw[8..12])
      && DecodeAccountData(raw[12..]) == Ok((r.value.data, []))
    ensures fetched.Ok? && |fetched.value| == 72 ==>
      var raw := fetched.value;
      && r.value.nonce == LeValue(raw[0..4])
      && r.value.consumers == LeValue(raw[4..8])
      && r.value.providers == 0
      && DecodeAccountData(raw[8..]) == Ok((r.value.data, []))
  {
    var raw :- fetched;
    if |raw| == 0 then Err(EmptyAccountInfo)
    else if |raw| == 80 then
      match DecodeTripleRefCount(raw)
      case Ok(a) => Ok(FromTripleRefCount(a.0))
      case Err(e) => Err(e)
    else if |raw| == 76 then
      match DecodeWithProviders(raw)
      case Ok(a) => Ok(FromWithProviders(a.0))
      case Err(e) => Err(e)
    else if |raw| == 72 then
      match DecodeOld(raw)
      case Ok(a) => Ok(FromOld(a.0))
      case Err(e) => Err(e)
    else Err(AccountInfoLength(|raw|))
  }

  /** Every record stored in one of the three layouts is read back as its normalised form:
      the lengths tell the layouts apart. */
  lemma AccountInfoLayoutsRoundTrip(t: AccountInfoWithTripleRefCount, p: AccountInfoWithProviders, o: AccountInfoOld)
    ensures GetStorageAccountInfo(Ok(EncodeTripleRefCount(t))) == Ok(FromTripleRefCount(t))
    ensures GetStorageAccountInfo(Ok(EncodeWithProviders(p))) == Ok(FromWithProviders(p))
    ensures GetStorageAccountInfo(Ok(EncodeOld(o))) == Ok(FromOld(o))
  {
    TripleRefCountRoundTrip(t, []);
    assert EncodeTripleRefCount(t) + [] == EncodeTripleRefCount(t);
    WithProvidersRoundTrip(p, []);
    assert EncodeWithProviders(p) + [] == EncodeWithProviders(p);
    OldRoundTrip(o, []);
    assert EncodeOld(o) + [] == EncodeOld(o);
  }

  // ---------------------------------------------------------------- GetStorage

  /** The outcome of GetStorage: whether a value was present, the error if any, and the
      decoded value when decoding succeeded. */
  datatype StorageOutcome<T> = StorageOutcome(ok: bool, err: Option<Error>, target: Option<T>)

  /** GetStorage and GetStorageLatest (which differ only in the block the fetch reads): a
      failed fetch reports its error; an empty value is absent, with no error and nothing
      decoded; otherwise the value is present and the decode's outcome is reported. */
  function GetStorage<T>(fetched: Result<bytes>, dec: Decoder<T>): (r: StorageOutcome<T>)
    ensures r.ok <==> fetched.Ok? && |fetched.value| > 0
    ensures fetched.Err? ==> r.err == Some(fetched.error) && r.target.None?
    ensures fetched.Ok? && |fetched.value| == 0 ==> r.err.None? && r.target.None?
    ensures r.ok ==> (r.err.None? <==> dec(fetched.value).Ok?)
    ensures r.ok && r.err.Some? ==> r.err == Some(dec(fetched.value).error) && r.target.None?
    ensures r.target.Some? ==> r.ok && dec(fetched.value).Ok? && r.target.value == dec(fetched.value).value.0
    ensures r.ok && r.err.None? ==> dec(fetched.value).Ok? && r.target == Some(dec(fetched.value).value.0)
  {
    match fetched
    case Err(e) => StorageOutcome(false, Some(e), None)
    case Ok(raw) =>
      if |raw| == 0 then StorageOutcome(false, None, None)
      else
        match dec(raw)
        case Err(e) => StorageOutcome(true, Some(e), None)
        case Ok(v) => StorageOutcome(true, None, Some(v.0))
  }

  /** A value stored in its encoded form, when that form is not empty, is reported present,
      without error, and decoded back to itself. */
  lemma GetStorageRoundTrip<T>(enc: Encoder<T>, dec: Decoder<T>, x: T)
    requires RoundTripsAt(enc, dec, x, [])
    requires enc(x).Ok? && |enc(x).value| > 0
    ensures GetStorage(Ok(enc(x).value), dec) == StorageOutcome(true, None, Some(x))
  {
    assert enc(x).value + [] == enc(x).value;
  }
}
