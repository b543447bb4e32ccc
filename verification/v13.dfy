/** Legacy (V13) metadata: modules with flag-gated storage, calls and events, storage entries
    whose shape is one of four flagged alternatives, and the hasher list a storage entry's
    key is built with.

    The records the V13 module refers to but whose definitions are outside this model
    (function, event, constant and error metadata) are name-only: their wire form here is
    their name. The map, double-map and n-map shapes carry their hashers as tags. */
module V13 {
  import opened Scale
  import opened Hashers
  import V14

  /** A legacy type, named by its textual path. */
  type Type = Text

  /** The name-only stand-in for FunctionMetadataV4, EventMetadataV4,
      ModuleConstantMetadataV6 and ErrorMetadataV8. */
  datatype Named = Named(name: Text)

  type FunctionMetadataV4 = Named
  type EventMetadataV4 = Named
  type ModuleConstantMetadataV6 = Named
  type ErrorMetadataV8 = Named

  datatype MapTypeV10 = MapTypeV10(hasher: HasherTag, key: Type, value: Type, linked: bool)

  datatype DoubleMapTypeV10 = DoubleMapTypeV10(hasher: HasherTag, key1: Type, key2: Type, value: Type, key2Hasher: HasherTag)

  datatype NMap = NMap(keys: seq<Type>, hashers: seq<HasherTag>, value: Type)

  /** The Go struct keeps one flag and one payload per shape; the decoder sets exactly one. */
  datatype StorageFunctionTypeV13 = StorageFunctionTypeV13(
    isType: bool, asType: Type,
    isMap: bool, asMap: MapTypeV10,
    isDoubleMap: bool, asDoubleMap: DoubleMapTypeV10,
    isNMap: bool, asNMap: NMap)

  datatype StorageFunctionMetadataV13 = StorageFunctionMetadataV13(
    name: Text,
    modifier: V14.StorageEntryModifierV14,
    storageType: StorageFunctionTypeV13,
    fallback: bytes,
    docs: seq<Text>)

  datatype StorageMetadataV13 = StorageMetadataV13(prefix: Text, items: seq<StorageFunctionMetadataV13>)

  datatype ModuleMetadataV13 = ModuleMetadataV13(
    name: Text,
    hasStorage: bool, storage: StorageMetadataV13,
    hasCalls: bool, calls: seq<FunctionMetadataV4>,
    hasEvents: bool, events: seq<EventMetadataV4>,
    constants: seq<ModuleConstantMetadataV6>,
    errors: seq<ErrorMetadataV8>,
    index: byte)

  datatype ExtrinsicV11 = ExtrinsicV11(version: byte, signedExtensions: seq<Text>)

  datatype MetadataV13 = MetadataV13(modules: seq<ModuleMetadataV13>, extrinsic: ExtrinsicV11)

  // Zero values of the Go fields a decoder leaves untouched.
  const NoMap := MapTypeV10(0, [], [], false)
  const NoDoubleMap := DoubleMapTypeV10(0, [], [], [], 0)
  const NoNMap := NMap([], [], [])
  const NoStorageType := StorageFunctionTypeV13(false, [], false, NoMap, false, NoDoubleMap, false, NoNMap)
  const NoStorage := StorageMetadataV13([], [])

  // ---------------------------------------------------------------- name-only records

  function DecodeNamed(s: bytes): Result<(Named, bytes)> {
    var name :- DecodeText(s);
    Ok((Named(name.0), name.1))
  }

  function EncodeNamed(n: Named): Result<bytes> {
    EncodeText(n.name)
  }

  lemma NamedRoundTrip(n: Named, rest: bytes)
    ensures RoundTripsAt(EncodeNamed, DecodeNamed, n, rest)
  {
    TextRoundTrip(n.name, rest);
  }

  function DecodeNameds(s: bytes): Result<(seq<Named>, bytes)> {
    DecodeSeq(DecodeNamed, s)
  }

  function EncodeNameds(ns: seq<Named>): Result<bytes> {
    EncodeSeq(EncodeNamed, ns)
  }

  lemma NamedsRoundTrip(ns: seq<Named>, rest: bytes)
    ensures EncodeNameds(ns).Ok? ==> DecodeNameds(EncodeNameds(ns).value + rest) == Ok((ns, rest))
  {
    forall x, r | x in ns ensures RoundTripsAt(EncodeNamed, DecodeNamed, x, r) {
      NamedRoundTrip(x, r);
    }
    SeqRoundTrip(EncodeNamed, DecodeNamed, ns, rest);
  }

  // ---------------------------------------------------------------- storage shapes

  /** MapTypeV10: hasher, key, value, linked. */
  function DecodeMapType(s: bytes): Result<(MapTypeV10, bytes)> {
    var hasher :- DecodeU8(s);
    var key :- DecodeText(hasher.1);
    var value :- DecodeText(key.1);
    var linked :- DecodeBool(value.1);
    Ok((MapTypeV10(hasher.0, key.0, value.0, linked.0), linked.1))
  }

  function EncodeMapType(m: MapTypeV10): Result<bytes> {
    var key :- EncodeText(m.key);
    var value :- EncodeText(m.value);
    Ok([m.hasher] + key + value + EncodeBool(m.linked))
  }

  lemma MapTypeRoundTrip(m: MapTypeV10, rest: bytes)
    ensures EncodeMapType(m).Ok? ==> DecodeMapType(EncodeMapType(m).value + rest) == Ok((m, rest))
  {
    if EncodeMapType(m).Ok? {
      var key := EncodeText(m.key).value;
      var value := EncodeText(m.value).value;
      var linked := EncodeBool(m.linked);
      Concat4([m.hasher], key, value, linked, rest);
      var s1 := key + (value + (linked + rest));
      assert ([m.hasher] + s1)[1..] == s1;
      TextRoundTrip(m.key, value + (linked + rest));
      TextRoundTrip(m.value, linked + rest);
      assert (linked + rest)[1..] == rest;
    }
  }

  /** DoubleMapTypeV10: hasher, first key, second key, value, second key's hasher. */
  function DecodeDoubleMapType(s: bytes): Result<(DoubleMapTypeV10, bytes)> {
    var hasher :- DecodeU8(s);
    var key1 :- DecodeText(hasher.1);
    var key2 :- DecodeText(key1.1);
    var value :- DecodeText(key2.1);
    var key2Hasher :- DecodeU8(value.1);
    Ok((DoubleMapTypeV10(hasher.0, key1.0, key2.0, value.0, key2Hasher.0), key2Hasher.1))
  }

  function EncodeDoubleMapType(m: DoubleMapTypeV10): Result<bytes> {
    var key1 :- EncodeText(m.key1);
    var key2 :- EncodeText(m.key2);
    var value :- EncodeText(m.value);
    Ok([m.hasher] + key1 + key2 + value + [m.key2Hasher])
  }

  lemma DoubleMapTypeRoundTrip(m: DoubleMapTypeV10, rest: bytes)
    ensures EncodeDoubleMapType(m).Ok? ==> DecodeDoubleMapType(EncodeDoubleMapType(m).value + rest) == Ok((m, rest))
  {
    if EncodeDoubleMapType(m).Ok? {
      var key1 := EncodeText(m.key1).value;
      var key2 := EncodeText(m.key2).value;
      var value := EncodeText(m.value).value;
      var s4 := [m.key2Hasher] + rest;
      var s3 := value + s4;
      var s2 := key2 + s3;
      var s1 := key1 + s2;
      Concat4([m.hasher] + key1, key2, value, [m.key2Hasher], rest);
      Concat2([m.hasher], key1, s2);
      assert ([m.hasher] + s1)[1..] == s1;
      TextRoundTrip(m.key1, s2);
      TextRoundTrip(m.key2, s3);
      TextRoundTrip(m.value, s4);
      assert s4[1..] == rest;
    }
  }

  /** NMap: the key types, then their hashers, then the value type. */
  function DecodeNMap(s: bytes): Result<(NMap, bytes)> {
    var keys :- DecodeTexts(s);
    var hashers :- V14.DecodeHasherTags(keys.1);
    var value :- DecodeText(hashers.1);
    Ok((NMap(keys.0, hashers.0, value.0), value.1))
  }

  function EncodeNMap(m: NMap): Result<bytes> {
    var keys :- EncodeTexts(m.keys);
    var hashers :- V14.EncodeHasherTags(m.hashers);
    var value :- EncodeText(m.value);
    Ok(keys + hashers + value)
  }

  lemma NMapRoundTrip(m: NMap, rest: bytes)
    ensures EncodeNMap(m).Ok? ==> DecodeNMap(EncodeNMap(m).value + rest) == Ok((m, rest))
  {
    if EncodeNMap(m).Ok? {
      var keys := EncodeTexts(m.keys).value;
      var hashers := V14.EncodeHasherTags(m.hashers).value;
      var value := EncodeText(m.value).value;
      Concat3(keys, hashers, value, rest);
      TextsRoundTrip(m.keys, hashers + (value + rest));
      V14.HasherTagsRoundTrip(m.hashers, value + rest);
      TextRoundTrip(m.value, rest);
    }
  }

  /** The tag the encoder writes: that of the first set flag, in the order type, map,
      double map, n-map. */
  function ShapeTag(t: StorageFunctionTypeV13): Option<byte> {
    if t.isType then Some(0)
    else if t.isMap then Some(1)
    else if t.isDoubleMap then Some(2)
    else if t.isNMap then Some(3)
    else None
  }

  /** The shape the encoder actually writes: only the first set flag and its payload. */
  function Normalize(t: StorageFunctionTypeV13): (r: StorageFunctionTypeV13)
    ensures ShapeTag(r) == ShapeTag(t)
  {
    if t.isType then NoStorageType.(isType := true, asType := t.asType)
    else if t.isMap then NoStorageType.(isMap := true, asMap := t.asMap)
    else if t.isDoubleMap then NoStorageType.(isDoubleMap := true, asDoubleMap := t.asDoubleMap)
    else if t.isNMap then NoStorageType.(isNMap := true, asNMap := t.asNMap)
    else t
  }

  /** Exactly one flag is set, and every other payload is at its zero value: the values the
      decoder produces. */
  predicate Canonical(t: StorageFunctionTypeV13) {
    ShapeTag(t).Some? && Normalize(t) == t
  }

  /** A canonical shape has exactly one flag set: the one its tag names. */
  lemma CanonicalOneFlag(t: StorageFunctionTypeV13)
    ensures Canonical(t) ==>
      && (t.isType <==> ShapeTag(t) == Some(0))
      && (t.isMap <==> ShapeTag(t) == Some(1))
      && (t.isDoubleMap <==> ShapeTag(t) == Some(2))
      && (t.isNMap <==> ShapeTag(t) == Some(3))
  {
  }

  /** StorageFunctionTypeV13.Decode: tag 0 to 3 sets the matching flag and reads only that
      payload; any other tag fails with the tag. */
  function DecodeStorageFunctionType(s: bytes): (r: Result<(StorageFunctionTypeV13, bytes)>)
    ensures |s| == 0 ==> r == Err(Truncated)
    ensures |s| > 0 && s[0] > 3 ==> r == Err(UnexpectedStorageTypeV13(s[0]))
    ensures r.Ok? ==> Canonical(r.value.0) && ShapeTag(r.value.0) == Some(s[0])
  {
    var t :- ReadByte(s);
    DecodeShapePayload(t.0, t.1)
  }

  /** The payload that follows tag `tag`. */
  function DecodeShapePayload(tag: byte, t: bytes): (r: Result<(StorageFunctionTypeV13, bytes)>)
    ensures tag > 3 ==> r == Err(UnexpectedStorageTypeV13(tag))
    ensures r.Ok? ==> Canonical(r.value.0) && ShapeTag(r.value.0) == Some(tag)
  {
    match tag
    case 0 =>
      var p :- DecodeText(t);
      Ok((NoStorageType.(isType := true, asType := p.0), p.1))
    case 1 =>
      var p :- DecodeMapType(t);
      Ok((NoStorageType.(isMap := true, asMap := p.0), p.1))
    case 2 =>
      var p :- DecodeDoubleMapType(t);
      Ok((NoStorageType.(isDoubleMap := true, asDoubleMap := p.0), p.1))
    case 3 =>
      var p :- DecodeNMap(t);
      Ok((NoStorageType.(isNMap := true, asNMap := p.0), p.1))
    case _ => Err(UnexpectedStorageTypeV13(tag))
  }

  /** StorageFunctionTypeV13.Encode: the tag of the first set flag, then that payload; with no
      flag set it fails. */
  function EncodeStorageFunctionType(t: StorageFunctionTypeV13): (r: Result<bytes>)
    ensures ShapeTag(t).None? ==> r == Err(NoStorageTypeSet)
    ensures r.Ok? ==> |r.value| > 0 && ShapeTag(t) == Some(r.value[0])
  {
    match ShapeTag(t)
    case None => Err(NoStorageTypeSet)
    case Some(tag) =>
      var p :- EncodeShapePayload(t);
      Ok([tag] + p)
  }

  /** The payload of the first set flag. */
  function EncodeShapePayload(t: StorageFunctionTypeV13): Result<bytes> {
    if t.isType then EncodeText(t.asType)
    else if t.isMap then EncodeMapType(t.asMap)
    else if t.isDoubleMap then EncodeDoubleMapType(t.asDoubleMap)
    else if t.isNMap then EncodeNMap(t.asNMap)
    else Err(NoStorageTypeSet)
  }

  lemma ShapePayloadNormalizes(t: StorageFunctionTypeV13, rest: bytes)
    requires ShapeTag(t).Some?
    ensures EncodeShapePayload(t).Ok? ==>
      DecodeShapePayload(ShapeTag(t).value, EncodeShapePayload(t).value + rest) == Ok((Normalize(t), rest))
  {
    if t.isType {
      TextRoundTrip(t.asType, rest);
    } else if t.isMap {
      MapTypeRoundTrip(t.asMap, rest);
    } else if t.isDoubleMap {
      DoubleMapTypeRoundTrip(t.asDoubleMap, rest);
    } else {
      NMapRoundTrip(t.asNMap, rest);
    }
  }

  /** Decoding what the encoder wrote gives the shape of the first set flag, whatever other
      flags were set. */
  lemma StorageFunctionTypeNormalizes(t: StorageFunctionTypeV13, rest: bytes)
    ensures EncodeStorageFunctionType(t).Ok? ==>
      DecodeStorageFunctionType(EncodeStorageFunctionType(t).value + rest) == Ok((Normalize(t), rest))
  {
    if EncodeStorageFunctionType(t).Ok? {
      var tag := ShapeTag(t).value;
      var p := EncodeShapePayload(t).value;
      Concat2([tag], p, rest);
      assert ([tag] + (p + rest))[0] == tag && ([tag] + (p + rest))[1..] == p + rest;
      ShapePayloadNormalizes(t, rest);
    }
  }

  /** The encoder and decoder mirror each other on the values the decoder produces. */
  lemma StorageFunctionTypeRoundTrip(t: StorageFunctionTypeV13, rest: bytes)
    requires Canonical(t)
    ensures EncodeStorageFunctionType(t).Ok? ==>
      DecodeStorageFunctionType(EncodeStorageFunctionType(t).value + rest) == Ok((t, rest))
  {
    StorageFunctionTypeNormalizes(t, rest);
  }

  // ---------------------------------------------------------------- storage functions

  /** StorageFunctionMetadataV13: name, modifier, shape, fallback bytes, docs. */
  function DecodeStorageFunction(s: bytes): (r: Result<(StorageFunctionMetadataV13, bytes)>)
    ensures r.Ok? ==> Canonical(r.value.0.storageType)
  {
    var name :- DecodeText(s);
    var modifier :- V14.DecodeModifier(name.1);
    var storageType :- DecodeStorageFunctionType(modifier.1);
    var fallback :- DecodeText(storageType.1);
    var docs :- DecodeTexts(fallback.1);
    Ok((StorageFunctionMetadataV13(name.0, modifier.0, storageType.0, fallback.0, docs.0), docs.1))
  }

  function EncodeStorageFunction(e: StorageFunctionMetadataV13): Result<bytes> {
    var name :- EncodeText(e.name);
    var modifier :- V14.EncodeModifier(e.modifier);
    var storageType :- EncodeStorageFunctionType(e.storageType);
    var fallback :- EncodeText(e.fallback);
    var docs :- EncodeTexts(e.docs);
    Ok(name + modifier + storageType + fallback + docs)
  }

  lemma DecodeStorageFunctionSteps(e: StorageFunctionMetadataV13, s0: bytes, s1: bytes, s2: bytes, s3: bytes, s4: bytes, rest: bytes)
    requires DecodeText(s0) == Ok((e.name, s1))
    requires V14.DecodeModifier(s1) == Ok((e.modifier, s2))
    requires DecodeStorageFunctionType(s2) == Ok((e.storageType, s3))
    requires DecodeText(s3) == Ok((e.fallback, s4))
    requires DecodeTexts(s4) == Ok((e.docs, rest))
    ensures DecodeStorageFunction(s0) == Ok((e, rest))
  {
  }

  lemma StorageFunctionRoundTrip(e: StorageFunctionMetadataV13, rest: bytes)
    requires Canonical(e.storageType)
    ensures EncodeStorageFunction(e).Ok? ==> DecodeStorageFunction(EncodeStorageFunction(e).value + rest) == Ok((e, rest))
  {
    if EncodeStorageFunction(e).Ok? {
      var name := EncodeText(e.name).value;
      var modifier := V14.EncodeModifier(e.modifier).value;
      var storageType := EncodeStorageFunctionType(e.storageType).value;
      var fallback := EncodeText(e.fallback).value;
      var docs := EncodeTexts(e.docs).value;
      var s4 := docs + rest;
      var s3 := fallback + s4;
      var s2 := storageType + s3;
      var s1 := modifier + s2;
      Concat4(name + modifier, storageType, fallback, docs, rest);
      Concat2(name, modifier, s2);
      TextRoundTrip(e.name, s1);
      V14.ModifierRoundTrip(e.modifier, s2);
      StorageFunctionTypeRoundTrip(e.storageType, s3);
      TextRoundTrip(e.fallback, s4);
      TextsRoundTrip(e.docs, rest);
      DecodeStorageFunctionSteps(e, name + s1, s1, s2, s3, s4, rest);
    }
  }

  /** StorageMetadataV13: the prefix, then the entries. */
  function DecodeStorage(s: bytes): (r: Result<(StorageMetadataV13, bytes)>)
    ensures r.Ok? ==> forall e :: e in r.value.0.items ==> Canonical(e.storageType)
  {
    var prefix :- DecodeText(s);
    var items :- DecodeSeq(DecodeStorageFunction, prefix.1);
    assert forall e :: e in items.0 ==> Canonical(e.storageType) by {
      DecodedSeqSatisfies(DecodeStorageFunction, (e: StorageFunctionMetadataV13) => Canonical(e.storageType), prefix.1);
    }
    Ok((StorageMetadataV13(prefix.0, items.0), items.1))
  }

  function EncodeStorage(st: StorageMetadataV13): Result<bytes> {
    var prefix :- EncodeText(st.prefix);
    var items :- EncodeSeq(EncodeStorageFunction, st.items);
    Ok(prefix + items)
  }

  predicate StorageWellFormed(st: StorageMetadataV13) {
    forall e :: e in st.items ==> Canonical(e.storageType)
  }

  lemma StorageRoundTrip(st: StorageMetadataV13, rest: bytes)
    requires StorageWellFormed(st)
    ensures RoundTripsAt(EncodeStorage, DecodeStorage, st, rest)
  {
    if EncodeStorage(st).Ok? {
      var prefix := EncodeText(st.prefix).value;
      var items := EncodeSeq(EncodeStorageFunction, st.items).value;
      Concat2(prefix, items, rest);
      TextRoundTrip(st.prefix, items + rest);
      forall x, r | x in st.items ensures RoundTripsAt(EncodeStorageFunction, DecodeStorageFunction, x, r) {
        StorageFunctionRoundTrip(x, r);
      }
      SeqRoundTrip(EncodeStorageFunction, DecodeStorageFunction, st.items, rest);
    }
  }

  // ---------------------------------------------------------------- modules

  /** The module values the decoder produces: payloads under unset flags at their zero
      values, and every storage shape canonical. */
  predicate ModuleWellFormed(m: ModuleMetadataV13) {
    && (!m.hasStorage ==> m.storage == NoStorage)
    && (!m.hasCalls ==> m.calls == [])
    && (!m.hasEvents ==> m.events == [])
    && StorageWellFormed(m.storage)
  }

  /** ModuleMetadataV13.Decode: name; storage, calls and events each behind their flag;
      constants and errors always; the index last. */
  function DecodeModule(s: bytes): (r: Result<(ModuleMetadataV13, bytes)>)
    ensures r.Ok? ==> ModuleWellFormed(r.value.0)
  {
    var name :- DecodeText(s);
    var storage :- DecodeGated(DecodeStorage, NoStorage, name.1);
    var calls :- DecodeGated(DecodeNameds, [], storage.1);
    var events :- DecodeGated(DecodeNameds, [], calls.1);
    var constants :- DecodeNameds(events.1);
    var errors :- DecodeNameds(constants.1);
    var index :- DecodeU8(errors.1);
    assert StorageWellFormed(storage.0.1) by {
      if storage.0.0 {
        assert DecodeStorage(name.1[1..]).Ok?;
      }
    }
    Ok((ModuleMetadataV13(name.0, storage.0.0, storage.0.1, calls.0.0, calls.0.1, events.0.0, events.0.1,
                          constants.0, errors.0, index.0), index.1))
  }

  /** ModuleMetadataV13.Encode: the same fields in the same order, each payload only under
      its flag. */
  function EncodeModule(m: ModuleMetadataV13): Result<bytes> {
    var name :- EncodeText(m.name);
    var storage :- EncodeGated(EncodeStorage, m.hasStorage, m.storage);
    var calls :- EncodeGated(EncodeNameds, m.hasCalls, m.calls);
    var events :- EncodeGated(EncodeNameds, m.hasEvents, m.events);
    var constants :- EncodeNameds(m.constants);
    var errors :- EncodeNameds(m.errors);
    Ok(name + storage + calls + events + constants + errors + [m.index])
  }

  lemma DecodeModuleSteps(m: ModuleMetadataV13, s0: bytes, s1: bytes, s2: bytes, s3: bytes, s4: bytes, s5: bytes, s6: bytes, rest: bytes)
    requires DecodeText(s0) == Ok((m.name, s1))
    requires DecodeGated(DecodeStorage, NoStorage, s1) == Ok(((m.hasStorage, m.storage), s2))
    requires DecodeGated(DecodeNameds, [], s2) == Ok(((m.hasCalls, m.calls), s3))
    requires DecodeGated(DecodeNameds, [], s3) == Ok(((m.hasEvents, m.events), s4))
    requires DecodeNameds(s4) == Ok((m.constants, s5))
    requires DecodeNameds(s5) == Ok((m.errors, s6))
    requires DecodeU8(s6) == Ok((m.index, rest))
    ensures DecodeModule(s0) == Ok((m, rest))
  {
  }

  /** Encode and Decode are mirror images on every module the decoder can produce. */
  lemma ModuleRoundTrip(m: ModuleMetadataV13, rest: bytes)
    requires ModuleWellFormed(m)
    ensures EncodeModule(m).Ok? ==> DecodeModule(EncodeModule(m).value + rest) == Ok((m, rest))
  {
    if EncodeModule(m).Ok? {
      var name := EncodeText(m.name).value;
      var storage := EncodeGated(EncodeStorage, m.hasStorage, m.storage).value;
      var calls := EncodeGated(EncodeNameds, m.hasCalls, m.calls).value;
      var events := EncodeGated(EncodeNameds, m.hasEvents, m.events).value;
      var constants := EncodeNameds(m.constants).value;
      var errors := EncodeNameds(m.errors).value;
      var s6 := [m.index] + rest;
      var s5 := errors + s6;
      var s4 := constants + s5;
      var s3 := events + s4;
      var s2 := calls + s3;
      var s1 := storage + s2;
      Concat7(name, storage, calls, events, constants, errors, [m.index], rest);
      TextRoundTrip(m.name, s1);
      StorageRoundTrip(m.storage, s2);
      GatedRoundTrip(EncodeStorage, DecodeStorage, NoStorage, m.hasStorage, m.storage, s2);
      NamedsRoundTrip(m.calls, s3);
      GatedRoundTrip(EncodeNameds, DecodeNameds, [], m.hasCalls, m.calls, s3);
      NamedsRoundTrip(m.events, s4);
      GatedRoundTrip(EncodeNameds, DecodeNameds, [], m.hasEvents, m.events, s4);
      NamedsRoundTrip(m.constants, s5);
      NamedsRoundTrip(m.errors, s6);
      assert s6[1..] == rest;
      DecodeModuleSteps(m, name + s1, s1, s2, s3, s4, s5, s6, rest);
    }
  }

  // ---------------------------------------------------------------- the whole metadata

  function DecodeExtrinsic(s: bytes): Result<(ExtrinsicV11, bytes)> {
    var version :- DecodeU8(s);
    var exts :- DecodeTexts(version.1);
    Ok((ExtrinsicV11(version.0, exts.0), exts.1))
  }

  function EncodeExtrinsic(x: ExtrinsicV11): Result<bytes> {
    var exts :- EncodeTexts(x.signedExtensions);
    Ok([x.version] + exts)
  }

  lemma ExtrinsicRoundTrip(x: ExtrinsicV11, rest: bytes)
    ensures EncodeExtrinsic(x).Ok? ==> DecodeExtrinsic(EncodeExtrinsic(x).value + rest) == Ok((x, rest))
  {
    if EncodeExtrinsic(x).Ok? {
      var exts := EncodeTexts(x.signedExtensions).value;
      Concat2([x.version], exts, rest);
      assert ([x.version] + (exts + rest))[1..] == exts + rest;
      TextsRoundTrip(x.signedExtensions, rest);
    }
  }

  /** MetadataV13.Decode: the modules, then the extrinsic. */
  function DecodeMetadataV13(s: bytes): (r: Result<(MetadataV13, bytes)>)
    ensures r.Ok? ==> forall m :: m in r.value.0.modules ==> ModuleWellFormed(m)
  {
    var modules :- DecodeSeq(DecodeModule, s);
    var extrinsic :- DecodeExtrinsic(modules.1);
    assert forall m :: m in modules.0 ==> ModuleWellFormed(m) by {
      DecodedSeqSatisfies(DecodeModule, ModuleWellFormed, s);
    }
    Ok((MetadataV13(modules.0, extrinsic.0), extrinsic.1))
  }

  function EncodeMetadataV13(md: MetadataV13): Result<bytes> {
    var modules :- EncodeSeq(EncodeModule, md.modules);
    var extrinsic :- EncodeExtrinsic(md.extrinsic);
    Ok(modules + extrinsic)
  }

  lemma MetadataRoundTrip(md: MetadataV13, rest: bytes)
    requires forall m :: m in md.modules ==> ModuleWellFormed(m)
    ensures EncodeMetadataV13(md).Ok? ==> DecodeMetadataV13(EncodeMetadataV13(md).value + rest) == Ok((md, rest))
  {
    if EncodeMetadataV13(md).Ok? {
      var modules := EncodeSeq(EncodeModule, md.modules).value;
      var extrinsic := EncodeExtrinsic(md.extrinsic).value;
      Concat2(modules, extrinsic, rest);
      forall x, r | x in md.modules ensures RoundTripsAt(EncodeModule, DecodeModule, x, r) {
        ModuleRoundTrip(x, r);
      }
      SeqRoundTrip(EncodeModule, DecodeModule, md.modules, extrinsic + rest);
      ExtrinsicRoundTrip(md.extrinsic, rest);
    }
  }

  // ---------------------------------------------------------------- hashers

  predicate IsPlain(e: StorageFunctionMetadataV13) { e.storageType.isType }
  predicate IsMap(e: StorageFunctionMetadataV13) { e.storageType.isMap }
  predicate IsDoubleMap(e: StorageFunctionMetadataV13) { e.storageType.isDoubleMap }
  predicate IsNMap(e: StorageFunctionMetadataV13) { e.storageType.isNMap }

  /** StorageFunctionMetadataV13.GetHashers: the map's hasher when the map flag is set, the
      double map's two hashers when its flag is set, then the n-map's declared hashers when
      its flag is set and otherwise the default 128-bit xxhash. */
  function GetHashers(e: StorageFunctionMetadataV13): (r: Result<seq<Hasher>>)
    ensures r.Ok? <==>
      && (IsMap(e) ==> e.storageType.asMap.hasher < 7)
      && (IsDoubleMap(e) ==> e.storageType.asDoubleMap.hasher < 7 && e.storageType.asDoubleMap.key2Hasher < 7)
      && (IsNMap(e) ==> forall i :: 0 <= i < |e.storageType.asNMap.hashers| ==> e.storageType.asNMap.hashers[i] < 7)
    ensures r.Err? ==> r.error == HasherNotSupported
    ensures r.Ok? && !IsNMap(e) ==> |r.value| > 0 && r.value[|r.value| - 1] == DefaultHasher
    ensures Canonical(e.storageType) && IsPlain(e) ==> r == Ok([DefaultHasher])
    ensures Canonical(e.storageType) && IsMap(e) && r.Ok? ==>
      |r.value| == 2 && TagOf(r.value[0]) == e.storageType.asMap.hasher && r.value[1] == DefaultHasher
    ensures Canonical(e.storageType) && IsDoubleMap(e) && r.Ok? ==>
      && |r.value| == 3
      && TagOf(r.value[0]) == e.storageType.asDoubleMap.hasher
      && TagOf(r.value[1]) == e.storageType.asDoubleMap.key2Hasher
      && r.value[2] == DefaultHasher
    ensures Canonical(e.storageType) && IsNMap(e) && r.Ok? ==>
      && |r.value| == |e.storageType.asNMap.hashers|
      && forall i :: 0 <= i < |r.value| ==> TagOf(r.value[i]) == e.storageType.asNMap.hashers[i]
  {
    var t := e.storageType;
    CanonicalOneFlag(t);
    var fromMap :- if t.isMap then
                     var h :- HashFunc(t.asMap.hasher);
                     Ok([h])
                   else Ok([]);
    var fromDoubleMap :- if t.isDoubleMap then
                           var h1 :- HashFunc(t.asDoubleMap.hasher);
                           var h2 :- HashFunc(t.asDoubleMap.key2Hasher);
                           Ok([h1, h2])
                         else Ok([]);
    var tail :- if t.isNMap then HashFuncs(t.asNMap.hashers) else Ok([DefaultHasher]);
    var none: seq<Hasher> := [];
    assert none + none + tail == tail;
    Ok(fromMap + fromDoubleMap + tail)
  }
}
