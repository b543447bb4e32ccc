/** Registry-format (V14) metadata: pallets whose storage, calls, events and errors are each
    a presence flag followed by the payload only when the flag is set, storage entries with a
    one-byte modifier and a one-byte shape tag, and the id-to-type lookup map built from the
    portable registry after it is decoded. */
module V14 {
  import opened Scale
  import opened Hashers
  import opened Portable

  // ---------------------------------------------------------------- data model

  /** StorageEntryModifierV14: exactly one of the three flags is set by a successful decode. */
  datatype StorageEntryModifierV14 = Optional | Default | Required

  datatype MapTypeV14 = MapTypeV14(hashers: seq<HasherTag>, keysId: TypeId, valueId: TypeId)

  /** StorageEntryTypeV14: a plain value of one type, or a map keyed through its hashers. */
  datatype StorageEntryTypeV14 = PlainType(plainType: TypeId) | MapType(asMap: MapTypeV14)

  datatype StorageEntryMetadataV14 = StorageEntryMetadataV14(
    name: Text,
    modifier: StorageEntryModifierV14,
    entryType: StorageEntryTypeV14,
    fallback: bytes,
    docs: seq<Text>)

  datatype PalletStorageMetadataV14 = PalletStorageMetadataV14(prefix: Text, items: seq<StorageEntryMetadataV14>)

  datatype PalletConstantMetadataV14 = PalletConstantMetadataV14(name: Text, typeId: TypeId, value: bytes, docs: seq<Text>)

  /** The calls, events and errors payloads are each a single registry id. */
  datatype PalletMetadataV14 = PalletMetadataV14(
    name: Text,
    hasStorage: bool,
    storage: PalletStorageMetadataV14,
    hasCalls: bool,
    callsType: TypeId,
    hasEvents: bool,
    eventsType: TypeId,
    constants: seq<PalletConstantMetadataV14>,
    hasErrors: bool,
    errorsType: TypeId,
    index: byte)

  datatype SignedExtensionMetadataV14 = SignedExtensionMetadataV14(identifier: Text, typeId: TypeId, additionalSigned: TypeId)

  datatype ExtrinsicMetadataV14 = ExtrinsicMetadataV14(typeId: TypeId, version: byte, signedExtensions: seq<SignedExtensionMetadataV14>)

  /** The registry as decoded, the map derived from it, the pallets and the extrinsic. */
  datatype MetadataV14 = MetadataV14(
    lookup: seq<PortableTypeV14>,
    lookUpData: map<TypeId, Si1Type>,
    pallets: seq<PalletMetadataV14>,
    extrinsic: ExtrinsicMetadataV14)

  /** The zero value a pallet keeps for storage it does not have. */
  const NoStorage := PalletStorageMetadataV14([], [])

  /** A payload under an unset flag is left at its zero value. */
  predicate PalletWellFormed(p: PalletMetadataV14) {
    && (!p.hasStorage ==> p.storage == NoStorage)
    && (!p.hasCalls ==> p.callsType == 0)
    && (!p.hasEvents ==> p.eventsType == 0)
    && (!p.hasErrors ==> p.errorsType == 0)
  }

  // ---------------------------------------------------------------- storage modifier and type

  function ModifierTag(m: StorageEntryModifierV14): byte {
    match m
    case Optional => 0
    case Default => 1
    case Required => 2
  }

  /** StorageEntryModifierV14.Decode: byte 0, 1 or 2 selects one modifier; any other byte fails
      with that byte. */
  function DecodeModifier(s: bytes): (r: Result<(StorageEntryModifierV14, bytes)>)
    ensures r.Ok? <==> |s| > 0 && s[0] < 3
    ensures r.Ok? ==> ModifierTag(r.value.0) == s[0] && r.value.1 == s[1..]
    ensures |s| > 0 && s[0] >= 3 ==> r == Err(UnexpectedModifier(s[0]))
  {
    var h :- ReadByte(s);
    match h.0
    case 0 => Ok((Optional, h.1))
    case 1 => Ok((Default, h.1))
    case 2 => Ok((Required, h.1))
    case _ => Err(UnexpectedModifier(h.0))
  }

  function EncodeModifier(m: StorageEntryModifierV14): Result<bytes> {
    Ok([ModifierTag(m)])
  }

  lemma ModifierRoundTrip(m: StorageEntryModifierV14, rest: bytes)
    ensures DecodeModifier(EncodeModifier(m).value + rest) == Ok((m, rest))
  {
    assert ([ModifierTag(m)] + rest)[1..] == rest;
  }

  function DecodeHasherTags(s: bytes): Result<(seq<HasherTag>, bytes)> {
    DecodeSeq(DecodeU8, s)
  }

  function EncodeHasherTags(hs: seq<HasherTag>): Result<bytes> {
    EncodeSeq(EncodeU8, hs)
  }

  lemma HasherTagsRoundTrip(hs: seq<HasherTag>, rest: bytes)
    ensures EncodeHasherTags(hs).Ok? ==> DecodeHasherTags(EncodeHasherTags(hs).value + rest) == Ok((hs, rest))
  {
    forall x, r | x in hs ensures RoundTripsAt(EncodeU8, DecodeU8, x, r) {
      assert ([x] + r)[1..] == r;
    }
    SeqRoundTrip(EncodeU8, DecodeU8, hs, rest);
  }

  /** MapTypeV14: hashers, then the key id, then the value id. */
  function DecodeMapType(s: bytes): Result<(MapTypeV14, bytes)> {
    var hashers :- DecodeHasherTags(s);
    var keys :- DecodeTypeId(hashers.1);
    var value :- DecodeTypeId(keys.1);
    Ok((MapTypeV14(hashers.0, keys.0, value.0), value.1))
  }

  function EncodeMapType(m: MapTypeV14): Result<bytes> {
    var hashers :- EncodeHasherTags(m.hashers);
    var keys :- EncodeTypeId(m.keysId);
    var value :- EncodeTypeId(m.valueId);
    Ok(hashers + keys + value)
  }

  lemma MapTypeRoundTrip(m: MapTypeV14, rest: bytes)
    ensures EncodeMapType(m).Ok? ==> DecodeMapType(EncodeMapType(m).value + rest) == Ok((m, rest))
  {
    if EncodeMapType(m).Ok? {
      var hashers := EncodeHasherTags(m.hashers).value;
      var keys := EncodeTypeId(m.keysId).value;
      var value := EncodeTypeId(m.valueId).value;
      Concat3(hashers, keys, value, rest);
      HasherTagsRoundTrip(m.hashers, keys + (value + rest));
      TypeIdRoundTrip(m.keysId, value + rest);
      TypeIdRoundTrip(m.valueId, rest);
    }
  }

  /** StorageEntryTypeV14.Decode: byte 0 is a plain type id, byte 1 a map; any other byte fails
      with that byte. */
  function DecodeStorageEntryType(s: bytes): (r: Result<(StorageEntryTypeV14, bytes)>)
    ensures |s| > 0 && s[0] > 1 ==> r == Err(UnsupportedStorageTypeV14(s[0]))
    ensures r.Ok? ==> |s| > 0 && (r.value.0.PlainType? <==> s[0] == 0) && (r.value.0.MapType? <==> s[0] == 1)
  {
    var h :- ReadByte(s);
    if h.0 == 0 then
      var p :- DecodeTypeId(h.1);
      Ok((PlainType(p.0), p.1))
    else if h.0 == 1 then
      var p :- DecodeMapType(h.1);
      Ok((MapType(p.0), p.1))
    else Err(UnsupportedStorageTypeV14(h.0))
  }

  function EncodeStorageEntryType(t: StorageEntryTypeV14): Result<bytes> {
    match t
    case PlainType(id) =>
      var p :- EncodeTypeId(id);
      Ok([0] + p)
    case MapType(m) =>
      var p :- EncodeMapType(m);
      Ok([1] + p)
  }

  lemma StorageEntryTypeRoundTrip(t: StorageEntryTypeV14, rest: bytes)
    ensures EncodeStorageEntryType(t).Ok? ==> DecodeStorageEntryType(EncodeStorageEntryType(t).value + rest) == Ok((t, rest))
  {
    if EncodeStorageEntryType(t).Ok? {
      match t
      case PlainType(id) =>
        var p := EncodeTypeId(id).value;
        Concat2([0], p, rest);
        assert ([0] + (p + rest))[1..] == p + rest;
        TypeIdRoundTrip(id, rest);
      case MapType(m) =>
        var p := EncodeMapType(m).value;
        Concat2([1], p, rest);
        assert ([1] + (p + rest))[1..] == p + rest;
        MapTypeRoundTrip(m, rest);
    }
  }

  // ---------------------------------------------------------------- storage entries

  /** StorageEntryMetadataV14: name, modifier, type, fallback bytes, docs. */
  function DecodeStorageEntry(s: bytes): Result<(StorageEntryMetadataV14, bytes)> {
    var name :- DecodeText(s);
    var modifier :- DecodeModifier(name.1);
    var entryType :- DecodeStorageEntryType(modifier.1);
    var fallback :- DecodeText(entryType.1);
    var docs :- DecodeTexts(fallback.1);
    Ok((StorageEntryMetadataV14(name.0, modifier.0, entryType.0, fallback.0, docs.0), docs.1))
  }

  function EncodeStorageEntry(e: StorageEntryMetadataV14): Result<bytes> {
    var name :- EncodeText(e.name);
    var modifier :- EncodeModifier(e.modifier);
    var entryType :- EncodeStorageEntryType(e.entryType);
    var fallback :- EncodeText(e.fallback);
    var docs :- EncodeTexts(e.docs);
    Ok(name + modifier + entryType + fallback + docs)
  }

  lemma DecodeStorageEntrySteps(e: StorageEntryMetadataV14, s0: bytes, s1: bytes, s2: bytes, s3: bytes, s4: bytes, rest: bytes)
    requires DecodeText(s0) == Ok((e.name, s1))
    requires DecodeModifier(s1) == Ok((e.modifier, s2))
    requires DecodeStorageEntryType(s2) == Ok((e.entryType, s3))
    requires DecodeText(s3) == Ok((e.fallback, s4))
    requires DecodeTexts(s4) == Ok((e.docs, rest))
    ensures DecodeStorageEntry(s0) == Ok((e, rest))
  {
  }

  lemma StorageEntryRoundTrip(e: StorageEntryMetadataV14, rest: bytes)
    ensures EncodeStorageEntry(e).Ok? ==> DecodeStorageEntry(EncodeStorageEntry(e).value + rest) == Ok((e, rest))
  {
    if EncodeStorageEntry(e).Ok? {
      var name := EncodeText(e.name).value;
      var modifier := EncodeModifier(e.modifier).value;
      var entryType := EncodeStorageEntryType(e.entryType).value;
      var fallback := EncodeText(e.fallback).value;
      var docs := EncodeTexts(e.docs).value;
      var s4 := docs + rest;
      var s3 := fallback + s4;
      var s2 := entryType + s3;
      var s1 := modifier + s2;
      Concat4(name + modifier, entryType, fallback, docs, rest);
      Concat2(name, modifier, s2);
      TextRoundTrip(e.name, s1);
      ModifierRoundTrip(e.modifier, s2);
      StorageEntryTypeRoundTrip(e.entryType, s3);
      TextRoundTrip(e.fallback, s4);
      TextsRoundTrip(e.docs, rest);
      DecodeStorageEntrySteps(e, name + s1, s1, s2, s3, s4, rest);
    }
  }

  /** PalletStorageMetadataV14.Decode: the prefix, then the entries. */
  function DecodePalletStorage(s: bytes): Result<(PalletStorageMetadataV14, bytes)> {
    var prefix :- DecodeText(s);
    var items :- DecodeSeq(DecodeStorageEntry, prefix.1);
    Ok((PalletStorageMetadataV14(prefix.0, items.0), items.1))
  }

  function EncodePalletStorage(st: PalletStorageMetadataV14): Result<bytes> {
    var prefix :- EncodeText(st.prefix);
    var items :- EncodeSeq(EncodeStorageEntry, st.items);
    Ok(prefix + items)
  }

  lemma PalletStorageRoundTrip(st: PalletStorageMetadataV14, rest: bytes)
    ensures RoundTripsAt(EncodePalletStorage, DecodePalletStorage, st, rest)
  {
    if EncodePalletStorage(st).Ok? {
      var prefix := EncodeText(st.prefix).value;
      var items := EncodeSeq(EncodeStorageEntry, st.items).value;
      Concat2(prefix, items, rest);
      TextRoundTrip(st.prefix, items + rest);
      forall x, r | x in st.items ensures RoundTripsAt(EncodeStorageEntry, DecodeStorageEntry, x, r) {
        StorageEntryRoundTrip(x, r);
      }
      SeqRoundTrip(EncodeStorageEntry, DecodeStorageEntry, st.items, rest);
    }
  }

  // ---------------------------------------------------------------- constants

  /** PalletConstantMetadataV14: name, type id, value bytes, docs. */
  function DecodeConstant(s: bytes): Result<(PalletConstantMetadataV14, bytes)> {
    var name :- DecodeText(s);
    var ty :- DecodeTypeId(name.1);
    var value :- DecodeText(ty.1);
    var docs :- DecodeTexts(value.1);
    Ok((PalletConstantMetadataV14(name.0, ty.0, value.0, docs.0), docs.1))
  }

  function EncodeConstant(c: PalletConstantMetadataV14): Result<bytes> {
    var name :- EncodeText(c.name);
    var ty :- EncodeTypeId(c.typeId);
    var value :- EncodeText(c.value);
    var docs :- EncodeTexts(c.docs);
    Ok(name + ty + value + docs)
  }

  lemma DecodeConstantSteps(c: PalletConstantMetadataV14, s0: bytes, s1: bytes, s2: bytes, s3: bytes, rest: bytes)
    requires DecodeText(s0) == Ok((c.name, s1))
    requires DecodeTypeId(s1) == Ok((c.typeId, s2))
    requires DecodeText(s2) == Ok((c.value, s3))
    requires DecodeTexts(s3) == Ok((c.docs, rest))
    ensures DecodeConstant(s0) == Ok((c, rest))
  {
  }

  lemma ConstantRoundTrip(c: PalletConstantMetadataV14, rest: bytes)
    ensures RoundTripsAt(EncodeConstant, DecodeConstant, c, rest)
  {
    if EncodeConstant(c).Ok? {
      var name := EncodeText(c.name).value;
      var ty := EncodeTypeId(c.typeId).value;
      var value := EncodeText(c.value).value;
      var docs := EncodeTexts(c.docs).value;
      var s3 := docs + rest;
      var s2 := value + s3;
      var s1 := ty + s2;
      Concat4(name, ty, value, docs, rest);
      TextRoundTrip(c.name, s1);
      TypeIdRoundTrip(c.typeId, s2);
      TextRoundTrip(c.value, s3);
      TextsRoundTrip(c.docs, rest);
      DecodeConstantSteps(c, name + s1, s1, s2, s3, rest);
    }
  }

  function DecodeConstants(s: bytes): Result<(seq<PalletConstantMetadataV14>, bytes)> {
    DecodeSeq(DecodeConstant, s)
  }

  function EncodeConstants(cs: seq<PalletConstantMetadataV14>): Result<bytes> {
    EncodeSeq(EncodeConstant, cs)
  }

  lemma ConstantsRoundTrip(cs: seq<PalletConstantMetadataV14>, rest: bytes)
    ensures EncodeConstants(cs).Ok? ==> DecodeConstants(EncodeConstants(cs).value + rest) == Ok((cs, rest))
  {
    forall x, r | x in cs ensures RoundTripsAt(EncodeConstant, DecodeConstant, x, r) {
      ConstantRoundTrip(x, r);
    }
    SeqRoundTrip(EncodeConstant, DecodeConstant, cs, rest);
  }

  // ---------------------------------------------------------------- pallets

  /** PalletMetadataV14.Decode: name; storage, calls and events each behind their flag;
      the constants always; errors behind their flag; the index last. */
  function DecodePallet(s: bytes): (r: Result<(PalletMetadataV14, bytes)>)
    ensures r.Ok? ==> PalletWellFormed(r.value.0)
  {
    var name :- DecodeText(s);
    var storage :- DecodeGated(DecodePalletStorage, NoStorage, name.1);
    var calls :- DecodeGated(DecodeTypeId, 0, storage.1);
    var events :- DecodeGated(DecodeTypeId, 0, calls.1);
    var constants :- DecodeConstants(events.1);
    var errors :- DecodeGated(DecodeTypeId, 0, constants.1);
    var index :- DecodeU8(errors.1);
    Ok((PalletMetadataV14(name.0, storage.0.0, storage.0.1, calls.0.0, calls.0.1, events.0.0, events.0.1,
                          constants.0, errors.0.0, errors.0.1, index.0), index.1))
  }

  /** The pallet's wire form with every flag written before its payload: the mirror of
      DecodePallet. */
  function EncodePallet(p: PalletMetadataV14): Result<bytes> {
    var name :- EncodeText(p.name);
    var storage :- EncodeGated(EncodePalletStorage, p.hasStorage, p.storage);
    var calls :- EncodeGated(EncodeTypeId, p.hasCalls, p.callsType);
    var events :- EncodeGated(EncodeTypeId, p.hasEvents, p.eventsType);
    var constants :- EncodeConstants(p.constants);
    var errors :- EncodeGated(EncodeTypeId, p.hasErrors, p.errorsType);
    Ok(name + storage + calls + events + constants + errors + [p.index])
  }

  /** PalletMetadataV14.Encode as written: the errors id is written unconditionally and the
      HasErrors flag is never written. */
  function EncodePalletAsWritten(p: PalletMetadataV14): Result<bytes> {
    var name :- EncodeText(p.name);
    var storage :- EncodeGated(EncodePalletStorage, p.hasStorage, p.storage);
    var calls :- EncodeGated(EncodeTypeId, p.hasCalls, p.callsType);
    var events :- EncodeGated(EncodeTypeId, p.hasEvents, p.eventsType);
    var constants :- EncodeConstants(p.constants);
    var errors :- EncodeTypeId(p.errorsType);
    Ok(name + storage + calls + events + constants + errors + [p.index])
  }

  lemma DecodePalletSteps(p: PalletMetadataV14, s0: bytes, s1: bytes, s2: bytes, s3: bytes, s4: bytes, s5: bytes, s6: bytes, rest: bytes)
    requires DecodeText(s0) == Ok((p.name, s1))
    requires DecodeGated(DecodePalletStorage, NoStorage, s1) == Ok(((p.hasStorage, p.storage), s2))
    requires DecodeGated(DecodeTypeId, 0, s2) == Ok(((p.hasCalls, p.callsType), s3))
    requires DecodeGated(DecodeTypeId, 0, s3) == Ok(((p.hasEvents, p.eventsType), s4))
    requires DecodeConstants(s4) == Ok((p.constants, s5))
    requires DecodeGated(DecodeTypeId, 0, s5) == Ok(((p.hasErrors, p.errorsType), s6))
    requires DecodeU8(s6) == Ok((p.index, rest))
    ensures DecodePallet(s0) == Ok((p, rest))
  {
  }

  /** Every well-formed pallet survives the corrected encoder and the decoder unchanged. */
  lemma PalletRoundTrip(p: PalletMetadataV14, rest: bytes)
    requires PalletWellFormed(p)
    ensures EncodePallet(p).Ok? ==> DecodePallet(EncodePallet(p).value + rest) == Ok((p, rest))
  {
    if EncodePallet(p).Ok? {
      var name := EncodeText(p.name).value;
      var storage := EncodeGated(EncodePalletStorage, p.hasStorage, p.storage).value;
      var calls := EncodeGated(EncodeTypeId, p.hasCalls, p.callsType).value;
      var events := EncodeGated(EncodeTypeId, p.hasEvents, p.eventsType).value;
      var constants := EncodeConstants(p.constants).value;
      var errors := EncodeGated(EncodeTypeId, p.hasErrors, p.errorsType).value;
      var s6 := [p.index] + rest;
      var s5 := errors + s6;
      var s4 := constants + s5;
      var s3 := events + s4;
      var s2 := calls + s3;
      var s1 := storage + s2;
      Concat7(name, storage, calls, events, constants, errors, [p.index], rest);
      TextRoundTrip(p.name, s1);
      PalletStorageRoundTrip(p.storage, s2);
      GatedRoundTrip(EncodePalletStorage, DecodePalletStorage, NoStorage, p.hasStorage, p.storage, s2);
      TypeIdRoundTrip(p.callsType, s3);
      GatedRoundTrip(EncodeTypeId, DecodeTypeId, 0, p.hasCalls, p.callsType, s3);
      TypeIdRoundTrip(p.eventsType, s4);
      GatedRoundTrip(EncodeTypeId, DecodeTypeId, 0, p.hasEvents, p.eventsType, s4);
      ConstantsRoundTrip(p.constants, s5);
      TypeIdRoundTrip(p.errorsType, s6);
      GatedRoundTrip(EncodeTypeId, DecodeTypeId, 0, p.hasErrors, p.errorsType, s6);
      assert s6[1..] == rest;
      DecodePalletSteps(p, name + s1, s1, s2, s3, s4, s5, s6, rest);
    }
  }

  /** A pallet that declares errors at id 0 and nothing else. */
  const ErrorsOnlyPallet := PalletMetadataV14([], false, NoStorage, false, 0, false, 0, [], true, 0, 7)

  lemma ErrorsOnlyPalletEncodesAsWritten()
    ensures EncodePalletAsWritten(ErrorsOnlyPallet) == Ok([0, 0, 0, 0, 0, 0, 7])
  {
    assert EncodeCompact(0) == Ok([0]);
    assert EncodeText([]) == Ok([0]) by {
      assert [0] + [] == [0];
    }
    assert EncodeConstants([]) == Ok([0]) by {
      assert [0] + [] == [0];
    }
    assert [0] + [0] + [0] + [0] + [0] + [0] + [7] == [0, 0, 0, 0, 0, 0, 7];
  }

  lemma SevenBytesDecode()
    ensures DecodePallet([0, 0, 0, 0, 0, 0, 7]) == Ok((ErrorsOnlyPallet.(hasErrors := false), []))
  {
    var s: bytes := [0, 0, 0, 0, 0, 0, 7];
    var s1: bytes := [0, 0, 0, 0, 0, 7];
    var s2: bytes := [0, 0, 0, 0, 7];
    var s3: bytes := [0, 0, 0, 7];
    var s4: bytes := [0, 0, 7];
    var s5: bytes := [0, 7];
    var s6: bytes := [7];
    assert s[1..] == s1 && s1[1..] == s2 && s2[1..] == s3 && s3[1..] == s4 && s4[1..] == s5 && s5[1..] == s6;
    ZeroPrefix(DecodeConstant, s);
    GatedUnset(DecodePalletStorage, NoStorage, s1);
    GatedUnset(DecodeTypeId, 0, s2);
    GatedUnset(DecodeTypeId, 0, s3);
    ZeroPrefix(DecodeConstant, s4);
    GatedUnset(DecodeTypeId, 0, s5);
    assert DecodeU8(s6) == Ok((7, [])) by {
      assert s6[1..] == [];
    }
    DecodePalletSteps(ErrorsOnlyPallet.(hasErrors := false), s, s1, s2, s3, s4, s5, s6, []);
  }

  /** The encoder as written loses the errors flag: a well-formed pallet with errors declared
      at id 0 and nothing else encodes to seven bytes that decode to a pallet without errors. */
  lemma PalletEncodeAsWrittenLosesErrors()
    ensures PalletWellFormed(ErrorsOnlyPallet) && ErrorsOnlyPallet.hasErrors
    ensures EncodePalletAsWritten(ErrorsOnlyPallet).Ok?
    ensures DecodePallet(EncodePalletAsWritten(ErrorsOnlyPallet).value) == Ok((ErrorsOnlyPallet.(hasErrors := false), []))
  {
    ErrorsOnlyPalletEncodesAsWritten();
    SevenBytesDecode();
  }

  // ---------------------------------------------------------------- extrinsic

  function DecodeSignedExtension(s: bytes): Result<(SignedExtensionMetadataV14, bytes)> {
    var identifier :- DecodeText(s);
    var ty :- DecodeTypeId(identifier.1);
    var additional :- DecodeTypeId(ty.1);
    Ok((SignedExtensionMetadataV14(identifier.0, ty.0, additional.0), additional.1))
  }

  function EncodeSignedExtension(e: SignedExtensionMetadataV14): Result<bytes> {
    var identifier :- EncodeText(e.identifier);
    var ty :- EncodeTypeId(e.typeId);
    var additional :- EncodeTypeId(e.additionalSigned);
    Ok(identifier + ty + additional)
  }

  lemma SignedExtensionRoundTrip(e: SignedExtensionMetadataV14, rest: bytes)
    ensures RoundTripsAt(EncodeSignedExtension, DecodeSignedExtension, e, rest)
  {
    if EncodeSignedExtension(e).Ok? {
      var identifier := EncodeText(e.identifier).value;
      var ty := EncodeTypeId(e.typeId).value;
      var additional := EncodeTypeId(e.additionalSigned).value;
      Concat3(identifier, ty, additional, rest);
      TextRoundTrip(e.identifier, ty + (additional + rest));
      TypeIdRoundTrip(e.typeId, additional + rest);
      TypeIdRoundTrip(e.additionalSigned, rest);
    }
  }

  /** ExtrinsicMetadataV14: type id, version byte, signed extensions. */
  function DecodeExtrinsic(s: bytes): Result<(ExtrinsicMetadataV14, bytes)> {
    var ty :- DecodeTypeId(s);
    var version :- DecodeU8(ty.1);
    var exts :- DecodeSeq(DecodeSignedExtension, version.1);
    Ok((ExtrinsicMetadataV14(ty.0, version.0, exts.0), exts.1))
  }

  function EncodeExtrinsic(x: ExtrinsicMetadataV14): Result<bytes> {
    var ty :- EncodeTypeId(x.typeId);
    var exts :- EncodeSeq(EncodeSignedExtension, x.signedExtensions);
    Ok(ty + [x.version] + exts)
  }

  lemma ExtrinsicRoundTrip(x: ExtrinsicMetadataV14, rest: bytes)
    ensures EncodeExtrinsic(x).Ok? ==> DecodeExtrinsic(EncodeExtrinsic(x).value + rest) == Ok((x, rest))
  {
    if EncodeExtrinsic(x).Ok? {
      var ty := EncodeTypeId(x.typeId).value;
      var exts := EncodeSeq(EncodeSignedExtension, x.signedExtensions).value;
      Concat3(ty, [x.version], exts, rest);
      TypeIdRoundTrip(x.typeId, [x.version] + (exts + rest));
      assert ([x.version] + (exts + rest))[1..] == exts + rest;
      forall e, r | e in x.signedExtensions ensures RoundTripsAt(EncodeSignedExtension, DecodeSignedExtension, e, r) {
        SignedExtensionRoundTrip(e, r);
      }
      SeqRoundTrip(EncodeSignedExtension, DecodeSignedExtension, x.signedExtensions, rest);
    }
  }

  // ---------------------------------------------------------------- the lookup map

  /** Whether `id` is carried by an entry of the registry after position `i`. */
  predicate IdRecurs(lookup: seq<PortableTypeV14>, i: nat, id: TypeId) {
    exists j :: i < j < |lookup| && lookup[j].id == id
  }

  /** The id-to-type map built after the registry is decoded: every entry is written in
      order, so an id carried twice maps to the type of its last entry. The map holds
      exactly the ids the registry carries. */
  function BuildLookUp(lookup: seq<PortableTypeV14>): (r: map<TypeId, Si1Type>)
    ensures forall id :: id in r <==> exists i :: 0 <= i < |lookup| && lookup[i].id == id
    decreases |lookup|
  {
    if |lookup| == 0 then map[]
    else
      var init := lookup[..|lookup| - 1];
      var last := lookup[|lookup| - 1];
      assert forall i :: 0 <= i < |init| ==> init[i] == lookup[i];
      BuildLookUp(init)[last.id := last.ty]
  }

  /** An entry whose id no later entry repeats is what the map holds for that id. */
  lemma {:induction false} LookUpLastWins(lookup: seq<PortableTypeV14>, i: nat)
    requires i < |lookup| && !IdRecurs(lookup, i, lookup[i].id)
    ensures lookup[i].id in BuildLookUp(lookup) && BuildLookUp(lookup)[lookup[i].id] == lookup[i].ty
    decreases |lookup|
  {
    if i < |lookup| - 1 {
      var init := lookup[..|lookup| - 1];
      assert lookup[|lookup| - 1].id != lookup[i].id;
      assert !IdRecurs(init, i, init[i].id) by {
        forall j | i < j < |init| ensures init[j].id != init[i].id {
          assert init[j] == lookup[j];
        }
      }
      LookUpLastWins(init, i);
    }
  }

  /** The map as the loop writing `&lookUp.Type` leaves it when the range variable is one
      variable for the whole loop (Go before 1.22): every id points at that variable, which
      holds the last entry once the loop ends. */
  function BuildLookUpAliased(lookup: seq<PortableTypeV14>): (r: map<TypeId, Si1Type>)
    ensures r.Keys == BuildLookUp(lookup).Keys
    ensures forall id :: id in r ==> r[id] == lookup[|lookup| - 1].ty
  {
    if |lookup| == 0 then map[]
    else map id | id in BuildLookUp(lookup) :: lookup[|lookup| - 1].ty
  }

  /** Two entries with different types: the aliased map gives the first id the second type. */
  lemma LookUpAliasedLosesTypes(a: Si1Type, b: Si1Type)
    requires a != b
    ensures var lookup := [PortableTypeV14(0, a), PortableTypeV14(1, b)];
            && 0 in BuildLookUp(lookup) && BuildLookUp(lookup)[0] == a
            && 0 in BuildLookUpAliased(lookup) && BuildLookUpAliased(lookup)[0] == b
  {
    var lookup := [PortableTypeV14(0, a), PortableTypeV14(1, b)];
    LookUpLastWins(lookup, 0);
    assert 0 in BuildLookUp(lookup);
  }

  // ---------------------------------------------------------------- metadata

  /** MetadataV14.Decode: the registry, then the map derived from it, then the pallets and
      the extrinsic. */
  function DecodeMetadataV14(s: bytes): (r: Result<(MetadataV14, bytes)>)
    ensures r.Ok? ==> forall id :: id in r.value.0.lookUpData <==>
      exists i :: 0 <= i < |r.value.0.lookup| && r.value.0.lookup[i].id == id
    ensures r.Ok? ==> forall i :: 0 <= i < |r.value.0.lookup| && !IdRecurs(r.value.0.lookup, i, r.value.0.lookup[i].id) ==>
      r.value.0.lookUpData[r.value.0.lookup[i].id] == r.value.0.lookup[i].ty
  {
    var lookup :- DecodeRegistry(s);
    var pallets :- DecodeSeq(DecodePallet, lookup.1);
    var extrinsic :- DecodeExtrinsic(pallets.1);
    var md := MetadataV14(lookup.0, BuildLookUp(lookup.0), pallets.0, extrinsic.0);
    assert forall i :: 0 <= i < |md.lookup| && !IdRecurs(md.lookup, i, md.lookup[i].id) ==>
      md.lookUpData[md.lookup[i].id] == md.lookup[i].ty by {
      forall i | 0 <= i < |md.lookup| && !IdRecurs(md.lookup, i, md.lookup[i].id)
        ensures md.lookUpData[md.lookup[i].id] == md.lookup[i].ty {
        LookUpLastWins(md.lookup, i);
      }
    }
    Ok((md, extrinsic.1))
  }

  /** The wire form DecodeMetadataV14 reads; the lookup map is not written, it is rebuilt. */
  function EncodeMetadataV14(md: MetadataV14): Result<bytes> {
    var lookup :- EncodeRegistry(md.lookup);
    var pallets :- EncodeSeq(EncodePallet, md.pallets);
    var extrinsic :- EncodeExtrinsic(md.extrinsic);
    Ok(lookup + pallets + extrinsic)
  }

  /** Metadata whose map is the one its registry builds and whose pallets are well formed. */
  predicate MetadataWellFormed(md: MetadataV14) {
    && md.lookUpData == BuildLookUp(md.lookup)
    && forall p :: p in md.pallets ==> PalletWellFormed(p)
  }

  lemma DecodeMetadataSteps(md: MetadataV14, s0: bytes, s1: bytes, s2: bytes, rest: bytes)
    requires md.lookUpData == BuildLookUp(md.lookup)
    requires DecodeRegistry(s0) == Ok((md.lookup, s1))
    requires DecodeSeq(DecodePallet, s1) == Ok((md.pallets, s2))
    requires DecodeExtrinsic(s2) == Ok((md.extrinsic, rest))
    ensures DecodeMetadataV14(s0) == Ok((md, rest))
  {
  }

  lemma MetadataRoundTrip(md: MetadataV14, rest: bytes)
    requires MetadataWellFormed(md)
    ensures EncodeMetadataV14(md).Ok? ==> DecodeMetadataV14(EncodeMetadataV14(md).value + rest) == Ok((md, rest))
  {
    if EncodeMetadataV14(md).Ok? {
      var lookup := EncodeRegistry(md.lookup).value;
      var pallets := EncodeSeq(EncodePallet, md.pallets).value;
      var extrinsic := EncodeExtrinsic(md.extrinsic).value;
      Concat3(lookup, pallets, extrinsic, rest);
      RegistryRoundTrip(md.lookup, pallets + (extrinsic + rest));
      forall p, r | p in md.pallets ensures RoundTripsAt(EncodePallet, DecodePallet, p, r) {
        PalletRoundTrip(p, r);
      }
      SeqRoundTrip(EncodePallet, DecodePallet, md.pallets, extrinsic + rest);
      ExtrinsicRoundTrip(md.extrinsic, rest);
      DecodeMetadataSteps(md, lookup + (pallets + (extrinsic + rest)), pallets + (extrinsic + rest), extrinsic + rest, rest);
    }
  }

  // ---------------------------------------------------------------- storage hashers

  /** IsPlain, and IsNMap: every map entry of this format is reported as an n-map, never
      as a map or double map. */
  predicate IsPlain(e: StorageEntryMetadataV14) {
    e.entryType.PlainType?
  }

  predicate IsNMap(e: StorageEntryMetadataV14) {
    e.entryType.MapType?
  }

  /** StorageEntryMetadataV14.GetHashers: nothing for a plain entry; for a map, one hasher
      per declared tag in declared order, or the error of the first unrecognised tag. */
  function GetHashers(e: StorageEntryMetadataV14): (r: Result<seq<Hasher>>)
    ensures IsPlain(e) ==> r == Ok([])
    ensures IsNMap(e) ==> (r.Ok? <==> forall i :: 0 <= i < |e.entryType.asMap.hashers| ==> e.entryType.asMap.hashers[i] < 7)
    ensures IsNMap(e) && r.Ok? ==>
      (|r.value| == |e.entryType.asMap.hashers| &&
       forall i :: 0 <= i < |r.value| ==> TagOf(r.value[i]) == e.entryType.asMap.hashers[i])
    ensures r.Err? ==> r.error == HasherNotSupported
  {
    match e.entryType
    case PlainType(_) => Ok([])
    case MapType(m) => HashFuncs(m.hashers)
  }
}
