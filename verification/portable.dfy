/** The portable type registry of registry-format (V14) metadata: an ordered list of
    (id, type) entries whose type definitions refer to other types only by registry id.
    Each definition is a one-byte tag followed by the payload of exactly that shape, so
    decoding is a finite tag dispatch with no recursion through nested definitions.

    The decoders follow the field order of the Go decoders; the encoders are the
    reference wire form each decoder reads back, used to state what the decoders do. */
module Portable {
  import opened Scale

  /** Si1LookupTypeId: a compact-encoded registry id. */
  type TypeId = nat

  /** Si0TypeDefPrimitive, in wire-tag order 0..14. */
  datatype Primitive = Bool | Char | Str | U8 | U16 | U32 | U64 | U128 | U256 | I8 | I16 | I32 | I64 | I128 | I256

  datatype Si1TypeParameter = Si1TypeParameter(name: Text, typeId: TypeId)

  /** Name and type name are optional on the wire; an absent one is left as empty text. */
  datatype Si1Field = Si1Field(name: Text, typeId: TypeId, typeName: Text, docs: seq<Text>)

  /** One arm of a variant type: its declared index need not equal its position. */
  datatype Si1Variant = Si1Variant(name: Text, fields: seq<Si1Field>, index: byte, docs: seq<Text>)

  /** Si1TypeDef: exactly one of the nine shapes, each holding only registry ids. The
      historic-compat payload is a legacy type name, kept as opaque text. */
  datatype Si1TypeDef =
    | Composite(fields: seq<Si1Field>)
    | Variant(variants: seq<Si1Variant>)
    | Sequence(elemType: TypeId)
    | Array(len: u32, elemType: TypeId)
    | Tuple(elemTypes: seq<TypeId>)
    | PrimitiveDef(primitive: Primitive)
    | Compact(compactType: TypeId)
    | BitSequence(bitStoreType: TypeId, bitOrderType: TypeId)
    | HistoricMetaCompat(legacyType: Text)

  datatype Si1Type = Si1Type(path: seq<Text>, params: seq<Si1TypeParameter>, def: Si1TypeDef, docs: seq<Text>)

  datatype PortableTypeV14 = PortableTypeV14(id: TypeId, ty: Si1Type)

  /** `Def.Variant.Variants` of a definition: the arms of a variant, and empty (the Go zero
      value) for every other shape. */
  function VariantsOf(def: Si1TypeDef): seq<Si1Variant> {
    if def.Variant? then def.variants else []
  }

  /** `Def.Primitive.Value`: the primitive's name, and empty for every other shape. */
  function PrimitiveValue(def: Si1TypeDef): string {
    if def.PrimitiveDef? then PrimitiveName(def.primitive) else ""
  }

  function PrimitiveName(p: Primitive): string {
    match p
    case Bool => "Bool"
    case Char => "Char"
    case Str => "Str"
    case U8 => "U8"
    case U16 => "U16"
    case U32 => "U32"
    case U64 => "U64"
    case U128 => "U128"
    case U256 => "U256"
    case I8 => "I8"
    case I16 => "I16"
    case I32 => "I32"
    case I64 => "I64"
    case I128 => "I128"
    case I256 => "I256"
  }

  function PrimitiveTag(p: Primitive): byte {
    match p
    case Bool => 0
    case Char => 1
    case Str => 2
    case U8 => 3
    case U16 => 4
    case U32 => 5
    case U64 => 6
    case U128 => 7
    case U256 => 8
    case I8 => 9
    case I16 => 10
    case I32 => 11
    case I64 => 12
    case I128 => 13
    case I256 => 14
  }

  /** The wire tag of each of the nine shapes. */
  function DefTag(def: Si1TypeDef): byte {
    match def
    case Composite(_) => 0
    case Variant(_) => 1
    case Sequence(_) => 2
    case Array(_, _) => 3
    case Tuple(_) => 4
    case PrimitiveDef(_) => 5
    case Compact(_) => 6
    case BitSequence(_, _) => 7
    case HistoricMetaCompat(_) => 8
  }

  // ---------------------------------------------------------------- type ids

  function DecodeTypeId(s: bytes): Result<(TypeId, bytes)> {
    DecodeCompact(s)
  }

  function EncodeTypeId(id: TypeId): Result<bytes> {
    EncodeCompact(id)
  }

  /** Decoding an encoded registry id yields the same id and leaves what followed it. */
  lemma TypeIdRoundTrip(id: TypeId, rest: bytes)
    ensures RoundTripsAt(EncodeTypeId, DecodeTypeId, id, rest)
  {
    CompactRoundTrip(id, rest);
  }

  function DecodeTypeIds(s: bytes): Result<(seq<TypeId>, bytes)> {
    DecodeSeq(DecodeTypeId, s)
  }

  function EncodeTypeIds(ids: seq<TypeId>): Result<bytes> {
    EncodeSeq(EncodeTypeId, ids)
  }

  lemma TypeIdsRoundTrip(ids: seq<TypeId>, rest: bytes)
    ensures RoundTripsAt(EncodeTypeIds, DecodeTypeIds, ids, rest)
  {
    forall x, r | x in ids ensures RoundTripsAt(EncodeTypeId, DecodeTypeId, x, r) {
      TypeIdRoundTrip(x, r);
    }
    SeqRoundTrip(EncodeTypeId, DecodeTypeId, ids, rest);
  }

  // ---------------------------------------------------------------- primitives

  /** Si0TypeDefPrimitive.Decode: one byte, 0..14 in the enumeration's order. */
  function DecodePrimitive(s: bytes): (r: Result<(Primitive, bytes)>)
    ensures r.Ok? <==> |s| > 0 && s[0] <= 14
    ensures r.Ok? ==> PrimitiveTag(r.value.0) == s[0] && r.value.1 == s[1..]
    ensures |s| > 0 && s[0] > 14 ==> r == Err(UnknownPrimitive(s[0]))
  {
    var h :- ReadByte(s);
    var p :- PrimitiveOfTag(h.0);
    Ok((p, h.1))
  }

  function PrimitiveOfTag(b: byte): (r: Result<Primitive>)
    ensures r.Ok? <==> b <= 14
    ensures r.Ok? ==> PrimitiveTag(r.value) == b
    ensures r.Err? ==> r.error == UnknownPrimitive(b)
  {
    match b
    case 0 => Ok(Bool)
    case 1 => Ok(Char)
    case 2 => Ok(Str)
    case 3 => Ok(U8)
    case 4 => Ok(U16)
    case 5 => Ok(U32)
    case 6 => Ok(U64)
    case 7 => Ok(U128)
    case 8 => Ok(U256)
    case 9 => Ok(I8)
    case 10 => Ok(I16)
    case 11 => Ok(I32)
    case 12 => Ok(I64)
    case 13 => Ok(I128)
    case 14 => Ok(I256)
    case _ => Err(UnknownPrimitive(b))
  }

  function EncodePrimitive(p: Primitive): Result<bytes> {
    Ok([PrimitiveTag(p)])
  }

  /** Every primitive's tag decodes back to it: the enumeration is a bijection with 0..14. */
  lemma PrimitiveRoundTrip(p: Primitive, rest: bytes)
    ensures RoundTripsAt(EncodePrimitive, DecodePrimitive, p, rest)
  {
    var s := [PrimitiveTag(p)] + rest;
    assert s[1..] == rest;
    assert PrimitiveOfTag(PrimitiveTag(p)) == Ok(p);
  }

  // ---------------------------------------------------------------- type parameters

  /** Si1TypeParameter.Decode: a name, then an optional type id; an absent id is id 0. */
  function DecodeTypeParameter(s: bytes): (r: Result<(Si1TypeParameter, bytes)>)
    ensures r.Ok? ==> exists n: Text, rest: bytes ::
      DecodeText(s) == Ok((n, rest)) && r.value.0.name == n &&
      (|rest| > 0 && rest[0] == 0 ==> r.value == (Si1TypeParameter(n, 0), rest[1..]))
  {
    var name :- DecodeText(s);
    var ty :- DecodeOption(DecodeTypeId, name.1);
    var id := if ty.0.Some? then ty.0.value else 0;
    Ok((Si1TypeParameter(name.0, id), ty.1))
  }

  /** Writes id 0 as the absent id, which decodes to the same parameter. */
  function EncodeTypeParameter(p: Si1TypeParameter): Result<bytes> {
    var name :- EncodeText(p.name);
    var ty :- EncodeOption(EncodeTypeId, if p.typeId == 0 then None else Some(p.typeId));
    Ok(name + ty)
  }

  lemma TypeParameterRoundTrip(p: Si1TypeParameter, rest: bytes)
    ensures RoundTripsAt(EncodeTypeParameter, DecodeTypeParameter, p, rest)
  {
    if EncodeTypeParameter(p).Ok? {
      var name := EncodeText(p.name).value;
      var o: Option<TypeId> := if p.typeId == 0 then None else Some(p.typeId);
      var ty := EncodeOption(EncodeTypeId, o).value;
      TextRoundTrip(p.name, ty + rest);
      if o.Some? {
        TypeIdRoundTrip(o.value, rest);
      }
      OptionRoundTrip(EncodeTypeId, DecodeTypeId, o, rest);
      Concat2(name, ty, rest);
    }
  }

  function DecodeTypeParameters(s: bytes): Result<(seq<Si1TypeParameter>, bytes)> {
    DecodeSeq(DecodeTypeParameter, s)
  }

  function EncodeTypeParameters(ps: seq<Si1TypeParameter>): Result<bytes> {
    EncodeSeq(EncodeTypeParameter, ps)
  }

  lemma TypeParametersRoundTrip(ps: seq<Si1TypeParameter>, rest: bytes)
    ensures RoundTripsAt(EncodeTypeParameters, DecodeTypeParameters, ps, rest)
  {
    forall x, r | x in ps ensures RoundTripsAt(EncodeTypeParameter, DecodeTypeParameter, x, r) {
      TypeParameterRoundTrip(x, r);
    }
    SeqRoundTrip(EncodeTypeParameter, DecodeTypeParameter, ps, rest);
  }

  // ---------------------------------------------------------------- fields

  function OptionalText(o: Option<Text>): Text {
    if o.Some? then o.value else []
  }

  /** Si1Field.Decode: optional name, type id, optional type name, docs, in that order;
      an absent name or type name leaves empty text. */
  function DecodeField(s: bytes): (r: Result<(Si1Field, bytes)>)
    ensures |s| > 0 && s[0] == 0 && r.Ok? ==> r.value.0.name == []
    ensures |s| > 0 && s[0] >= 2 ==> r == Err(InvalidOptionPrefix(s[0]))
  {
    var name :- DecodeOption(DecodeText, s);
    var ty :- DecodeTypeId(name.1);
    var typeName :- DecodeOption(DecodeText, ty.1);
    var docs :- DecodeTexts(typeName.1);
    Ok((Si1Field(OptionalText(name.0), ty.0, OptionalText(typeName.0), docs.0), docs.1))
  }

  /** Empty text is written as absent, which decodes to the same empty text. */
  function PresentUnlessEmpty(t: Text): Option<Text> {
    if t == [] then None else Some(t)
  }

  function EncodeField(f: Si1Field): Result<bytes> {
    var name :- EncodeOption(EncodeText, PresentUnlessEmpty(f.name));
    var ty :- EncodeTypeId(f.typeId);
    var typeName :- EncodeOption(EncodeText, PresentUnlessEmpty(f.typeName));
    var docs :- EncodeTexts(f.docs);
    Ok(name + ty + typeName + docs)
  }

  lemma OptionalTextRoundTrip(t: Text, rest: bytes)
    ensures EncodeOption(EncodeText, PresentUnlessEmpty(t)).Ok? ==>
      DecodeOption(DecodeText, EncodeOption(EncodeText, PresentUnlessEmpty(t)).value + rest) == Ok((PresentUnlessEmpty(t), rest))
    ensures OptionalText(PresentUnlessEmpty(t)) == t
  {
    var o := PresentUnlessEmpty(t);
    if o.Some? {
      TextRoundTrip(o.value, rest);
    }
    OptionRoundTrip(EncodeText, DecodeText, o, rest);
  }

  /** The field decoder composes its four steps. */
  lemma DecodeFieldSteps(f: Si1Field, s0: bytes, s1: bytes, s2: bytes, s3: bytes, rest: bytes)
    requires DecodeOption(DecodeText, s0) == Ok((PresentUnlessEmpty(f.name), s1))
    requires DecodeTypeId(s1) == Ok((f.typeId, s2))
    requires DecodeOption(DecodeText, s2) == Ok((PresentUnlessEmpty(f.typeName), s3))
    requires DecodeTexts(s3) == Ok((f.docs, rest))
    ensures DecodeField(s0) == Ok((f, rest))
  {
    OptionalTextRoundTrip(f.name, []);
    OptionalTextRoundTrip(f.typeName, []);
  }

  lemma FieldRoundTrip(f: Si1Field, rest: bytes)
    ensures EncodeField(f).Ok? ==> DecodeField(EncodeField(f).value + rest) == Ok((f, rest))
  {
    if EncodeField(f).Ok? {
      var name := EncodeOption(EncodeText, PresentUnlessEmpty(f.name)).value;
      var ty := EncodeTypeId(f.typeId).value;
      var typeName := EncodeOption(EncodeText, PresentUnlessEmpty(f.typeName)).value;
      var docs := EncodeTexts(f.docs).value;
      var s3 := docs + rest;
      var s2 := typeName + s3;
      var s1 := ty + s2;
      var s0 := name + s1;
      Concat4(name, ty, typeName, docs, rest);
      OptionalTextRoundTrip(f.name, s1);
      TypeIdRoundTrip(f.typeId, s2);
      OptionalTextRoundTrip(f.typeName, s3);
      TextsRoundTrip(f.docs, rest);
      DecodeFieldSteps(f, s0, s1, s2, s3, rest);
    }
  }

  function DecodeFields(s: bytes): Result<(seq<Si1Field>, bytes)> {
    DecodeSeq(DecodeField, s)
  }

  function EncodeFields(fs: seq<Si1Field>): Result<bytes> {
    EncodeSeq(EncodeField, fs)
  }

  lemma FieldsRoundTrip(fs: seq<Si1Field>, rest: bytes)
    ensures RoundTripsAt(EncodeFields, DecodeFields, fs, rest)
  {
    forall x, r | x in fs ensures RoundTripsAt(EncodeField, DecodeField, x, r) {
      FieldRoundTrip(x, r);
    }
    SeqRoundTrip(EncodeField, DecodeField, fs, rest);
  }

  // ---------------------------------------------------------------- variants

  /** Si1Variant.Decode: name, fields, u8 index, docs, in that order. */
  function DecodeVariant(s: bytes): Result<(Si1Variant, bytes)> {
    var name :- DecodeText(s);
    var fields :- DecodeFields(name.1);
    var index :- DecodeU8(fields.1);
    var docs :- DecodeTexts(index.1);
    Ok((Si1Variant(name.0, fields.0, index.0, docs.0), docs.1))
  }

  function EncodeVariant(v: Si1Variant): Result<bytes> {
    var name :- EncodeText(v.name);
    var fields :- EncodeFields(v.fields);
    var docs :- EncodeTexts(v.docs);
    Ok(name + fields + [v.index] + docs)
  }

  lemma DecodeVariantSteps(v: Si1Variant, s0: bytes, s1: bytes, s2: bytes, rest: bytes)
    requires DecodeText(s0) == Ok((v.name, s1))
    requires DecodeFields(s1) == Ok((v.fields, [v.index] + s2))
    requires DecodeTexts(s2) == Ok((v.docs, rest))
    ensures DecodeVariant(s0) == Ok((v, rest))
  {
    assert ([v.index] + s2)[1..] == s2;
  }

  lemma VariantRoundTrip(v: Si1Variant, rest: bytes)
    ensures EncodeVariant(v).Ok? ==> DecodeVariant(EncodeVariant(v).value + rest) == Ok((v, rest))
  {
    if EncodeVariant(v).Ok? {
      var name := EncodeText(v.name).value;
      var fields := EncodeFields(v.fields).value;
      var docs := EncodeTexts(v.docs).value;
      var s2 := docs + rest;
      var s1 := fields + ([v.index] + s2);
      var s0 := name + s1;
      Concat4(name, fields, [v.index], docs, rest);
      TextRoundTrip(v.name, s1);
      FieldsRoundTrip(v.fields, [v.index] + s2);
      TextsRoundTrip(v.docs, rest);
      DecodeVariantSteps(v, s0, s1, s2, rest);
    }
  }

  function DecodeVariants(s: bytes): Result<(seq<Si1Variant>, bytes)> {
    DecodeSeq(DecodeVariant, s)
  }

  function EncodeVariants(vs: seq<Si1Variant>): Result<bytes> {
    EncodeSeq(EncodeVariant, vs)
  }

  lemma VariantsRoundTrip(vs: seq<Si1Variant>, rest: bytes)
    ensures RoundTripsAt(EncodeVariants, DecodeVariants, vs, rest)
  {
    forall x, r | x in vs ensures RoundTripsAt(EncodeVariant, DecodeVariant, x, r) {
      VariantRoundTrip(x, r);
    }
    SeqRoundTrip(EncodeVariant, DecodeVariant, vs, rest);
  }

  // ---------------------------------------------------------------- the nine shapes

  /** Si1TypeDefArray.Decode: the u32 length, then the element id. */
  function DecodeArray(s: bytes): (r: Result<((u32, TypeId), bytes)>)
    ensures r.Ok? ==> |s| >= 4 && DecodeTypeId(s[4..]) == Ok((r.value.0.1, r.value.1))
  {
    var len :- DecodeU32(s);
    var ty :- DecodeTypeId(len.1);
    Ok(((len.0, ty.0), ty.1))
  }

  /** Si1TypeDefBitSequence.Decode: the bit-store id, then the bit-order id. */
  function DecodeBitSequence(s: bytes): (r: Result<((TypeId, TypeId), bytes)>)
    ensures r.Ok? ==> exists rest: bytes :: DecodeTypeId(s) == Ok((r.value.0.0, rest)) && DecodeTypeId(rest) == Ok((r.value.0.1, r.value.1))
  {
    var store :- DecodeTypeId(s);
    var order :- DecodeTypeId(store.1);
    Ok(((store.0, order.0), order.1))
  }

  /** Si1TypeDef.Decode: one tag byte selects exactly one shape and only that shape's payload
      is read; a tag outside 0..8 fails with that byte before anything else is read. */
  function DecodeTypeDef(s: bytes): (r: Result<(Si1TypeDef, bytes)>)
    ensures |s| == 0 ==> r == Err(Truncated)
    ensures |s| > 0 && s[0] > 8 ==> r == Err(UnknownTypeDef(s[0]))
    ensures r.Ok? ==> |s| > 0 && DefTag(r.value.0) == s[0]
  {
    var h :- ReadByte(s);
    DecodeTypeDefPayload(h.0, h.1)
  }

  /** The payload that follows tag `tag`. */
  function DecodeTypeDefPayload(tag: byte, t: bytes): (r: Result<(Si1TypeDef, bytes)>)
    ensures tag > 8 ==> r == Err(UnknownTypeDef(tag))
    ensures r.Ok? ==> DefTag(r.value.0) == tag
  {
    if tag <= 1 then DecodeAggregatePayload(tag, t)
    else if tag <= 4 then DecodeContainerPayload(tag, t)
    else if tag <= 8 then DecodeAtomPayload(tag, t)
    else Err(UnknownTypeDef(tag))
  }

  /** Tags 0 and 1: the fields of a composite, the variants of an enumeration. */
  function DecodeAggregatePayload(tag: byte, t: bytes): (r: Result<(Si1TypeDef, bytes)>)
    requires tag <= 1
    ensures r.Ok? ==> DefTag(r.value.0) == tag
  {
    if tag == 0 then
      var p :- DecodeFields(t);
      Ok((Composite(p.0), p.1))
    else
      var p :- DecodeVariants(t);
      Ok((Variant(p.0), p.1))
  }

  /** Tags 2 to 4: sequence, fixed-length array and tuple. */
  function DecodeContainerPayload(tag: byte, t: bytes): (r: Result<(Si1TypeDef, bytes)>)
    requires 2 <= tag <= 4
    ensures r.Ok? ==> DefTag(r.value.0) == tag
  {
    if tag == 2 then
      var p :- DecodeTypeId(t);
      Ok((Sequence(p.0), p.1))
    else if tag == 3 then
      var p :- DecodeArray(t);
      Ok((Array(p.0.0, p.0.1), p.1))
    else
      var p :- DecodeTypeIds(t);
      Ok((Tuple(p.0), p.1))
  }

  /** Tags 5 to 8: primitive, compact, bit sequence and the historic name. */
  function DecodeAtomPayload(tag: byte, t: bytes): (r: Result<(Si1TypeDef, bytes)>)
    requires 5 <= tag <= 8
    ensures r.Ok? ==> DefTag(r.value.0) == tag
  {
    if tag == 5 then
      var p :- DecodePrimitive(t);
      Ok((PrimitiveDef(p.0), p.1))
    else if tag == 6 then
      var p :- DecodeTypeId(t);
      Ok((Compact(p.0), p.1))
    else if tag == 7 then
      var p :- DecodeBitSequence(t);
      Ok((BitSequence(p.0.0, p.0.1), p.1))
    else
      var p :- DecodeText(t);
      Ok((HistoricMetaCompat(p.0), p.1))
  }

  function EncodeTypeDefPayload(def: Si1TypeDef): Result<bytes> {
    match def
    case Composite(fs) => EncodeFields(fs)
    case Variant(vs) => EncodeVariants(vs)
    case Sequence(id) => EncodeTypeId(id)
    case Array(len, id) =>
      var l :- EncodeU32(len);
      var i :- EncodeTypeId(id);
      Ok(l + i)
    case Tuple(ids) => EncodeTypeIds(ids)
    case PrimitiveDef(p) => EncodePrimitive(p)
    case Compact(id) => EncodeTypeId(id)
    case BitSequence(store, order) =>
      var a :- EncodeTypeId(store);
      var b :- EncodeTypeId(order);
      Ok(a + b)
    case HistoricMetaCompat(t) => EncodeText(t)
  }

  function EncodeTypeDef(def: Si1TypeDef): Result<bytes> {
    var payload :- EncodeTypeDefPayload(def);
    Ok([DefTag(def)] + payload)
  }

  lemma AggregatePayloadRoundTrip(def: Si1TypeDef, rest: bytes)
    requires def.Composite? || def.Variant?
    ensures EncodeTypeDefPayload(def).Ok? ==>
      DecodeAggregatePayload(DefTag(def), EncodeTypeDefPayload(def).value + rest) == Ok((def, rest))
  {
    if def.Composite? {
      FieldsRoundTrip(def.fields, rest);
    } else {
      VariantsRoundTrip(def.variants, rest);
    }
  }

  lemma ContainerPayloadRoundTrip(def: Si1TypeDef, rest: bytes)
    requires def.Sequence? || def.Array? || def.Tuple?
    ensures EncodeTypeDefPayload(def).Ok? ==>
      DecodeContainerPayload(DefTag(def), EncodeTypeDefPayload(def).value + rest) == Ok((def, rest))
  {
    if EncodeTypeDefPayload(def).Ok? {
      match def
      case Sequence(id) => TypeIdRoundTrip(id, rest);
      case Array(len, id) =>
        var l := EncodeU32(len).value;
        var i := EncodeTypeId(id).value;
        Concat2(l, i, rest);
        U32RoundTrip(len, i + rest);
        TypeIdRoundTrip(id, rest);
      case Tuple(ids) => TypeIdsRoundTrip(ids, rest);
    }
  }

  lemma AtomPayloadRoundTrip(def: Si1TypeDef, rest: bytes)
    requires def.PrimitiveDef? || def.Compact? || def.BitSequence? || def.HistoricMetaCompat?
    ensures EncodeTypeDefPayload(def).Ok? ==>
      DecodeAtomPayload(DefTag(def), EncodeTypeDefPayload(def).value + rest) == Ok((def, rest))
  {
    if EncodeTypeDefPayload(def).Ok? {
      match def
      case PrimitiveDef(p) => PrimitiveRoundTrip(p, rest);
      case Compact(id) => TypeIdRoundTrip(id, rest);
      case BitSequence(store, order) =>
        var a := EncodeTypeId(store).value;
        var b := EncodeTypeId(order).value;
        Concat2(a, b, rest);
        TypeIdRoundTrip(store, b + rest);
        TypeIdRoundTrip(order, rest);
      case HistoricMetaCompat(t) => TextRoundTrip(t, rest);
    }
  }

  lemma TypeDefPayloadRoundTrip(def: Si1TypeDef, rest: bytes)
    ensures EncodeTypeDefPayload(def).Ok? ==>
      DecodeTypeDefPayload(DefTag(def), EncodeTypeDefPayload(def).value + rest) == Ok((def, rest))
  {
    if def.Composite? || def.Variant? {
      AggregatePayloadRoundTrip(def, rest);
    } else if def.Sequence? || def.Array? || def.Tuple? {
      ContainerPayloadRoundTrip(def, rest);
    } else {
      AtomPayloadRoundTrip(def, rest);
    }
  }

  lemma TypeDefRoundTrip(def: Si1TypeDef, rest: bytes)
    ensures RoundTripsAt(EncodeTypeDef, DecodeTypeDef, def, rest)
  {
    if EncodeTypeDef(def).Ok? {
      var payload := EncodeTypeDefPayload(def).value;
      TypeDefPayloadRoundTrip(def, rest);
      Concat2([DefTag(def)], payload, rest);
      assert ([DefTag(def)] + (payload + rest))[1..] == payload + rest;
    }
  }

  // ---------------------------------------------------------------- types and the registry

  /** Si1Type.Decode: path, type parameters, definition, docs. */
  function DecodeSi1Type(s: bytes): Result<(Si1Type, bytes)> {
    var path :- DecodeTexts(s);
    var params :- DecodeTypeParameters(path.1);
    var def :- DecodeTypeDef(params.1);
    var docs :- DecodeTexts(def.1);
    Ok((Si1Type(path.0, params.0, def.0, docs.0), docs.1))
  }

  function EncodeSi1Type(t: Si1Type): Result<bytes> {
    var path :- EncodeTexts(t.path);
    var params :- EncodeTypeParameters(t.params);
    var def :- EncodeTypeDef(t.def);
    var docs :- EncodeTexts(t.docs);
    Ok(path + params + def + docs)
  }

  lemma DecodeSi1TypeSteps(t: Si1Type, s0: bytes, s1: bytes, s2: bytes, s3: bytes, rest: bytes)
    requires DecodeTexts(s0) == Ok((t.path, s1))
    requires DecodeTypeParameters(s1) == Ok((t.params, s2))
    requires DecodeTypeDef(s2) == Ok((t.def, s3))
    requires DecodeTexts(s3) == Ok((t.docs, rest))
    ensures DecodeSi1Type(s0) == Ok((t, rest))
  {
  }

  lemma Si1TypeRoundTrip(t: Si1Type, rest: bytes)
    ensures EncodeSi1Type(t).Ok? ==> DecodeSi1Type(EncodeSi1Type(t).value + rest) == Ok((t, rest))
  {
    if EncodeSi1Type(t).Ok? {
      var path := EncodeTexts(t.path).value;
      var params := EncodeTypeParameters(t.params).value;
      var def := EncodeTypeDef(t.def).value;
      var docs := EncodeTexts(t.docs).value;
      var s3 := docs + rest;
      var s2 := def + s3;
      var s1 := params + s2;
      var s0 := path + s1;
      Concat4(path, params, def, docs, rest);
      TextsRoundTrip(t.path, s1);
      TypeParametersRoundTrip(t.params, s2);
      TypeDefRoundTrip(t.def, s3);
      TextsRoundTrip(t.docs, rest);
      DecodeSi1TypeSteps(t, s0, s1, s2, s3, rest);
    }
  }

  /** PortableTypeV14.Decode: the id, whose failure is reported wrapped, then the type. */
  function DecodePortableType(s: bytes): (r: Result<(PortableTypeV14, bytes)>)
    ensures DecodeTypeId(s).Err? ==> r == Err(TypeIdError(DecodeTypeId(s).error))
  {
    var id := DecodeTypeId(s);
    if id.Err? then Err(TypeIdError(id.error))
    else
      var ty :- DecodeSi1Type(id.value.1);
      Ok((PortableTypeV14(id.value.0, ty.0), ty.1))
  }

  function EncodePortableType(p: PortableTypeV14): Result<bytes> {
    var id :- EncodeTypeId(p.id);
    var ty :- EncodeSi1Type(p.ty);
    Ok(id + ty)
  }

  lemma PortableTypeRoundTrip(p: PortableTypeV14, rest: bytes)
    ensures EncodePortableType(p).Ok? ==> DecodePortableType(EncodePortableType(p).value + rest) == Ok((p, rest))
  {
    if EncodePortableType(p).Ok? {
      var id := EncodeTypeId(p.id).value;
      var ty := EncodeSi1Type(p.ty).value;
      var s1 := ty + rest;
      Concat2(id, ty, rest);
      TypeIdRoundTrip(p.id, s1);
      Si1TypeRoundTrip(p.ty, rest);
    }
  }

  /** PortableRegistry: the registry entries in wire order. */
  function DecodeRegistry(s: bytes): Result<(seq<PortableTypeV14>, bytes)> {
    DecodeSeq(DecodePortableType, s)
  }

  function EncodeRegistry(reg: seq<PortableTypeV14>): Result<bytes> {
    EncodeSeq(EncodePortableType, reg)
  }

  lemma RegistryRoundTrip(reg: seq<PortableTypeV14>, rest: bytes)
    ensures RoundTripsAt(EncodeRegistry, DecodeRegistry, reg, rest)
  {
    forall x, r | x in reg ensures RoundTripsAt(EncodePortableType, DecodePortableType, x, r) {
      PortableTypeRoundTrip(x, r);
    }
    SeqRoundTrip(EncodePortableType, DecodePortableType, reg, rest);
  }
}
