# Substrate runtime metadata: decoding and name resolution

A Dafny model of the metadata core of the JFJun fork of go-substrate-rpc-client:

- **Registry-format (V14) metadata.** It covers:
  - the portable type registry and its nine-shape type definitions;
  - pallets, whose storage, calls, events and errors each sit behind a presence flag;
  - storage entries and the extrinsic record;
  - the id-to-type lookup map built after the registry is decoded.
- **Legacy (V13) metadata.** Modules with flag-gated payloads, and storage entries whose shape is one of four flagged alternatives.
- **Name resolvers** over both formats:
  - `FindCallIndex`, `FindEventNamesForEventID`, `FindStorageEntryMetadata` and `ExistsModuleMetadata`;
  - the storage hasher lists (`GetHashers`);
  - `findNameByCallIndex` and `getConstants`.
- **The state RPC's storage shim.**
  - GetStorage's rule that an empty value is absent, not an error.
  - GetStorageAccountInfo, which tells three historical account layouts apart by byte length and normalises them.

Every decoder is a pure function from bytes to `Result<(value, rest)>`. The modelled errors are the ones the Go code returns, and a Go index panic is one more error. Each decoder has a reference encoder, and its round-trip lemma says the decoder reads back exactly what the encoder wrote, leaving the bytes that follow. The resolvers are specified against independent definitions of "the first pallet that decides" and "the first matching variant". They are related by a round-trip lemma: in well-indexed metadata, `findNameByCallIndex` applied to the hex rendering of `FindCallIndex("M.f")` gives back `("M", "f")`.

Modules, one per file:

| file | module | what |
|---|---|---|
| scale.dfy | `Scale` | bytes, little-endian integers, compact integers, text, options, flag-gated payloads, sequences; the error type |
| search.dfy | `Search` | the first-match scan every resolver is built from |
| hashers.dfy | `Hashers` | hasher tags and the hashers they select |
| call_names.dfy | `CallNames` | "Module.function" splitting and joining; the four-hex-digit call index |
| portable.dfy | `Portable` | the portable type registry |
| v14.dfy | `V14` | V14 pallets, storage, extrinsic, the lookup map, V14 `GetHashers` |
| v14_resolve.dfy | `V14Resolve` | V14 resolvers |
| v13.dfy | `V13` | V13 modules, storage shapes, V13 `GetHashers` |
| v13_resolve.dfy | `V13Resolve` | V13 resolvers |
| account_info.dfy | `StateStorage` | GetStorage, GetStorageAccountInfo |

## Model

| member | source | states |
|---|---|---|
| `Scale.DecodeCompact` | types/metadataV14_protable.go:107-115 | A registry id read as a compact integer fails on empty input. It succeeds exactly when the input holds as many bytes as the first byte's two mode bits announce, and it consumes exactly those bytes. |
| `Scale.EncodeCompact` | types/metadataV14_protable.go:117-123 | Writing a compact id fails, with the value, exactly when the value needs more than the 67 bytes the big-integer mode can carry. |
| `Scale.CompactRoundTrip` | types/metadataV14_protable.go:107-123 | Every encodable value reads back unchanged through all four modes, and the bytes after it are left untouched. |
| `Scale.DecodeU32` | types/metadataV14_protable.go:316-322 | A u32 (an array length) succeeds exactly when four bytes remain, and consumes exactly four. |
| `Scale.U32RoundTrip` | types/metadataV14_protable.go:311-322 | Four little-endian bytes read back as the same u32. |
| `Scale.DecodeU128` | rpc/state/get_storage.go:103-106 | A 128-bit balance succeeds exactly when sixteen bytes remain, and consumes exactly sixteen. |
| `Scale.U128RoundTrip` | rpc/state/get_storage.go:103-106 | Sixteen little-endian bytes read back as the same balance. |
| `Scale.DecodeBool` | types/metadataV14.go:148-151 | A presence flag is 0 or 1; any other byte fails with that byte. |
| `Scale.TextRoundTrip` | types/metadataV14.go:144-147 | A name, as a compact length then its bytes, reads back unchanged. |
| `Scale.DecodeOption` | types/metadataV14_protable.go:160-167 | Prefix 0 is absent and consumes one byte; a prefix of 2 or more fails with that byte. |
| `Scale.OptionRoundTrip` | types/metadataV14_protable.go:160-167 | An optional value reads back as itself, present or absent. |
| `Scale.DecodeGated` | types/metadataV14.go:148-158 | The flag is set exactly when the first byte is 1. An unset flag reads nothing more and leaves the payload at its zero value; a set flag reads the payload from the byte after it. |
| `Scale.GatedRoundTrip` | types/metadataV14.go:207-217 | A flag and its payload, written only when the flag is set, read back as the same pair, provided an unset flag carries the zero payload. |
| `Scale.DecodeItems` | types/metadataV14.go:184-187 | A successful list read yields exactly the announced number of elements. |
| `Scale.SeqRoundTrip` | types/metadataV14.go:184-187 | A length-prefixed list whose elements round-trip reads back element for element. |
| `Scale.TextsRoundTrip` | types/metadataV14_protable.go:134-147 | Paths and documentation lists read back unchanged. |
| `Scale.DecodedSeqSatisfies` | types/metadataV13.go:16-22 | Every element of a decoded list has each property that a single successful decode guarantees. |
| `Search.FirstIndex` | types/metadataV14.go:91-97 | The result is the position of the first element with the property, or none exactly when no element has it. |
| `Hashers.HashFunc` | types/metadataV13.go:250-253 | A tag below 7 selects the hasher with that tag; any other tag fails with the unsupported-hasher error. |
| `Hashers.HashFuncs` | types/metadataV14.go:299-307 | A hasher list resolves exactly when every tag is known. It yields one hasher per tag, in declared order. |
| `Hashers.TagOfInjective` | types/metadataV13.go:250-253 | Distinct hashers have distinct tags. |
| `CallNames.FirstSegment` | types/metadataV14.go:22 | The first element of splitting on '.' is a dot-free prefix of the name, ended by a '.' when shorter than the name. |
| `CallNames.SplitJoin` | types/metadataV14.go:433-434 | Splitting "Module.function" built from two dot-free parts gives back both parts. |
| `CallNames.SplitWithoutDot` | types/metadataV13.go:33 | A name without '.' splits into itself and no second part. |
| `CallNames.DecodeHex` | types/metadataV14.go:446-449 | Decoded hex is half the length of the text. |
| `CallNames.EncodeHex` | types/metadataV14.go:438 | A rendered call index has two digits per byte. |
| `CallNames.HexRoundTrip` | types/metadataV14.go:443-449 | Hex rendering reads back as the same bytes. |
| `Portable.TypeIdRoundTrip` | types/metadataV14_protable.go:107-123 | A registry id reads back as itself. |
| `Portable.DecodePrimitive` | types/metadataV14_protable.go:34-74 | A primitive succeeds exactly on a byte in 0..14, which is the decoded primitive's tag; any other byte fails with that byte. |
| `Portable.PrimitiveOfTag` | types/metadataV14_protable.go:39-72 | Tags 0..14 select the primitive with that tag; all others fail. |
| `Portable.PrimitiveRoundTrip` | types/metadataV14_protable.go:34-74 | Each of the fifteen primitives reads back from its tag. |
| `Portable.DecodeTypeParameter` | types/metadataV14_protable.go:155-169 | A parameter's name is the text read first, and an absent type id is id 0. |
| `Portable.TypeParameterRoundTrip` | types/metadataV14_protable.go:155-169 | A type parameter reads back unchanged, since id 0 and an absent id coincide. |
| `Portable.DecodeField` | types/metadataV14_protable.go:250-265 | An absent field name is empty text, and an option prefix of 2 or more fails with that byte. |
| `Portable.FieldRoundTrip` | types/metadataV14_protable.go:250-265 | A field reads back unchanged, since empty text and an absent name coincide. |
| `Portable.VariantRoundTrip` | types/metadataV14_protable.go:282-301 | A variant (name, fields, index byte, docs) reads back unchanged. |
| `Portable.DecodeArray` | types/metadataV14_protable.go:316-322 | An array is a four-byte length followed by an element id. |
| `Portable.DecodeBitSequence` | types/metadataV14_protable.go:343-349 | A bit sequence is the bit-store id followed by the bit-order id. |
| `Portable.DecodeTypeDef` | types/metadataV14_protable.go:192-229 | Empty input fails as truncated, and a tag above 8 fails with the tag. On success the shape decoded is the one the tag names. |
| `Portable.DecodeTypeDefPayload` | types/metadataV14_protable.go:197-228 | Only the payload of the tagged shape is read, and the result has that shape. |
| `Portable.TypeDefRoundTrip` | types/metadataV14_protable.go:192-229 | Each of the nine shapes reads back unchanged. |
| `Portable.Si1TypeRoundTrip` | types/metadataV14_protable.go:134-148 | A type (path, parameters, definition, docs) reads back unchanged. |
| `Portable.DecodePortableType` | types/metadataV14_protable.go:15-22 | A failure reading the id is reported wrapped, and nothing further is read. |
| `Portable.PortableTypeRoundTrip` | types/metadataV14_protable.go:15-22 | A registry entry reads back unchanged. |
| `Portable.RegistryRoundTrip` | types/metadataV14.go:126-127 | The whole registry reads back entry for entry. |
| `V14.DecodeModifier` | types/metadataV14.go:317-335 | A modifier succeeds exactly on byte 0, 1 or 2, which is its tag, and consumes one byte; any other byte fails with that byte. |
| `V14.ModifierRoundTrip` | types/metadataV14.go:311-335 | Each modifier reads back from its tag. |
| `V14.MapTypeRoundTrip` | types/metadataV14.go:368-372 | A map shape (hasher tags, key id, value id) reads back unchanged. |
| `V14.DecodeStorageEntryType` | types/metadataV14.go:344-366 | Tag 0 gives a plain entry and tag 1 a map; any other tag fails with the tag. |
| `V14.StorageEntryTypeRoundTrip` | types/metadataV14.go:337-366 | Plain and map entry types read back unchanged. |
| `V14.StorageEntryRoundTrip` | types/metadataV14.go:273-279 | A storage entry reads back unchanged. |
| `V14.PalletStorageRoundTrip` | types/metadataV14.go:265-271 | A pallet's storage (prefix and entries) reads back unchanged. |
| `V14.ConstantRoundTrip` | types/metadataV14.go:394-399 | A constant (name, type id, value, docs) reads back unchanged. |
| `V14.DecodePallet` | types/metadataV14.go:143-199 | A decoded pallet leaves the payload under each unset flag at its zero value. |
| `V14.PalletRoundTrip` | types/metadataV14.go:143-199 | Every pallet the decoder can produce reads back unchanged from the corrected encoder. |
| `V14.ErrorsOnlyPalletEncodesAsWritten` | types/metadataV14.go:243-253 | The Go encoder writes a pallet that has only errors, at id 0, as seven bytes. |
| `V14.SevenBytesDecode` | types/metadataV14.go:184-198 | Those seven bytes decode to a pallet with no errors. |
| `V14.PalletEncodeAsWrittenLosesErrors` | types/metadataV14.go:201-254 | One witness: the well-formed pallet whose only payload is errors at type id 0 is written by the Go encoder as bytes that decode to the same pallet with its errors flag cleared. |
| `V14.SignedExtensionRoundTrip` | types/metadataV14.go:415-419 | A signed extension reads back unchanged. |
| `V14.ExtrinsicRoundTrip` | types/metadataV14.go:409-413 | The extrinsic record reads back unchanged. |
| `V14.BuildLookUp` | types/metadataV14.go:107-111 | The lookup map's keys are exactly the ids the registry carries. |
| `V14.LookUpLastWins` | types/metadataV14.go:107-111 | An entry whose id no later entry repeats is what the map holds for that id. |
| `V14.BuildLookUpAliased` | types/metadataV14.go:109-111 | Under a per-loop range variable, the map has the same keys, but every id maps to the last entry's type. |
| `V14.LookUpAliasedLosesTypes` | types/metadataV14.go:109-111 | For two entries with different types, the aliased map gives the first id the second entry's type, while the corrected map gives it its own. |
| `V14.DecodeMetadataV14` | types/metadataV14.go:100-124 | The decoded map's keys are exactly the registry's ids, and each id that is not repeated maps to its own entry's type. |
| `V14.MetadataRoundTrip` | types/metadataV14.go:100-124 | Metadata whose map is the one its registry builds, and whose pallets are well formed, reads back unchanged. The map is rebuilt, not read. |
| `V14.GetHashers` | types/metadataV14.go:295-309 | A plain entry has no hashers. A map resolves exactly when all its tags are known, to one hasher per tag in order. The only error is the unsupported hasher. |
| `V14Resolve.LookupVariants` | types/metadataV14.go:32-34 | The variants found for an id are exactly those of the registry entries that carry that id. |
| `V14Resolve.FindCallIn` | types/metadataV14.go:23-43 | The pallet loop succeeds exactly when some pallet with calls and that name declares the function. It then returns the declared indices of the first such pallet and that pallet's first matching variant. When the name has a second part, every miss (no such pallet, or no such function) fails with the one module-not-found error. A missing second name part fails exactly when a variant would be compared with it. |
| `V14Resolve.FindCallIndex` | types/metadataV14.go:21-45 | The same, for the name split at its first '.': a name with a '.' that resolves to nothing fails with the module-not-found error naming the first part and the whole call. |
| `V14Resolve.FindEventIn` | types/metadataV14.go:48-68 | The pallet loop succeeds exactly when some pallet with events at that index has a variant with that declared index. It then returns the names of the first such pallet and variant; otherwise it fails with the module index. |
| `V14Resolve.FindEventNamesForEventID` | types/metadataV14.go:47-70 | The same, over the metadata's pallets. |
| `V14Resolve.FindStorageEntryMetadata` | types/metadataV14.go:72-89 | The first pallet with storage under that prefix decides. The lookup finds the entry exactly when that pallet has one so named, and returns the first entry so named; it fails naming the entry otherwise. Without any such pallet it fails naming the module. |
| `V14Resolve.ExistsModuleMetadata` | types/metadataV14.go:91-98 | True exactly when some pallet has the name, whatever its flags. |
| `V14Resolve.FindNameIn` | types/metadataV14.go:450-472 | The first pallet with calls at that index whose call type is missing from the map, has no variants, or has a variant with that declared index decides. A missing type fails naming the pallet and the call index. No variants fails naming the pallet. A match gives the pallet's name and its first such variant's name. Without any deciding pallet the lookup fails as not found. When every selected pallet's type is mapped with variants, it succeeds exactly when some pallet names the call. |
| `V14Resolve.FindNameByCallIndex` | types/metadataV14.go:442-473 | Text that is not four characters fails with its length, and non-hex text fails as such. Four hex digits give the pallet index and the call index. |
| `V14Resolve.GetConstantsIn` | types/metadataV14.go:476-495 | The pallet loop fails as not found exactly when no pallet so named declares the constant. Otherwise the first such pallet's first constant so named decides. The lookup succeeds exactly when that constant's type id is in the map, giving the mapped type's primitive name and the constant's value. It fails with the missing-type error otherwise. |
| `V14Resolve.GetConstants` | types/metadataV14.go:475-496 | The same, over the metadata's pallets. |
| `V14Resolve.GetConstantsOfRegistry` | types/metadataV14.go:107-111 | With the map the registry builds, the first declared constant is reported with the primitive name of the registry entry carrying its type id (the last entry with that id) and its own value. |
| `V14Resolve.LookupVariantsOfUniqueId` | types/metadataV14.go:32-34 | With unique registry ids, the variants found by scanning are those of the one entry with that id. |
| `V14Resolve.FindNameInUnique` | types/metadataV14.go:450-472 | When one pallet has calls at the index and one of its variants has the call index, the lookup returns their names. |
| `V14Resolve.CallIndexNamesRoundTrip` | types/metadataV14.go:428-473 | In well-indexed metadata, resolving `"M.f"` to a call index, rendering it as hex and resolving that back gives `("M", "f")`. |
| `V13.NamedsRoundTrip` | types/metadataV13.go:99-104 | Call, event, constant and error lists read back unchanged. |
| `V13.MapTypeRoundTrip` | types/metadataV13.go:307-312 | A map shape reads back unchanged. |
| `V13.DoubleMapTypeRoundTrip` | types/metadataV13.go:313-318 | A double-map shape reads back unchanged. |
| `V13.NMapRoundTrip` | types/metadataV13.go:375-379 | An n-map shape (keys, hashers, value) reads back unchanged. |
| `V13.Normalize` | types/metadataV13.go:331-373 | Keeping only the first set flag keeps the tag the encoder writes. |
| `V13.CanonicalOneFlag` | types/metadataV13.go:293-329 | In a shape the decoder produces, each flag is set exactly when its tag is the shape's tag. |
| `V13.DecodeStorageFunctionType` | types/metadataV13.go:293-329 | Empty input fails as truncated, and a tag above 3 fails with the tag. A success has exactly the tagged flag set, with every other payload at its zero value. |
| `V13.EncodeStorageFunctionType` | types/metadataV13.go:331-373 | With no flag set it fails. Otherwise the first byte written is the tag of the first set flag. |
| `V13.StorageFunctionTypeNormalizes` | types/metadataV13.go:293-373 | Decoding what the encoder wrote gives the first set flag's shape alone, whatever other flags were set. |
| `V13.StorageFunctionTypeRoundTrip` | types/metadataV13.go:293-373 | Every shape the decoder produces reads back unchanged. |
| `V13.DecodeStorageFunction` | types/metadataV13.go:222-228 | A decoded storage entry has a shape the decoder produces. |
| `V13.StorageFunctionRoundTrip` | types/metadataV13.go:222-228 | Such an entry reads back unchanged. |
| `V13.DecodeStorage` | types/metadataV13.go:218-221 | Every decoded entry has such a shape. |
| `V13.StorageRoundTrip` | types/metadataV13.go:218-221 | Module storage with such entries reads back unchanged. |
| `V13.DecodeModule` | types/metadataV13.go:108-161 | A decoded module has the zero payload under each unset flag, and well-formed storage. |
| `V13.ModuleRoundTrip` | types/metadataV13.go:163-216 | Encode and Decode mirror each other on every module the decoder can produce. |
| `V13.ExtrinsicRoundTrip` | types/metadataV13.go:13 | The extrinsic record reads back unchanged. |
| `V13.DecodeMetadataV13` | types/metadataV13.go:16-22 | Every decoded module is well formed. |
| `V13.MetadataRoundTrip` | types/metadataV13.go:16-30 | Metadata with well-formed modules reads back unchanged. |
| `V13.GetHashers` | types/metadataV13.go:245-280 | It succeeds exactly when every hasher tag it consults is known. Any shape but an n-map ends with the default 128-bit xxhash. The results per shape are: plain, the default alone; map, its hasher then the default; double map, both hashers then the default; n-map, its declared hashers in order. |
| `V13Resolve.FindCallIndex` | types/metadataV13.go:32-49 | It fails naming the module exactly when no module with calls has that name. Otherwise the first such module decides. A name without '.' reads past the split. The result is Ok exactly when a call has the name, with the module index and the first such call's position; failure names the method. |
| `V13Resolve.CallIndexNamesCall` | types/metadataV13.go:32-49 | When no module has more than 256 calls, the returned index names a module with calls of that name and index, whose call at that position is the function. |
| `V13Resolve.FindEventNamesForEventID` | types/metadataV13.go:51-65 | It fails with the module index exactly when no module with events has it. Otherwise the first such module decides: an event position in range gives the two names, and one out of range fails with the position. |
| `V13Resolve.FindStorageEntryMetadata` | types/metadataV13.go:67-84 | The first module with storage under that prefix decides. The lookup finds the entry exactly when that module has one so named, and returns the first entry so named. It fails naming the entry otherwise, and fails naming the module when no such module exists. |
| `V13Resolve.ExistsModuleMetadata` | types/metadataV13.go:86-93 | True exactly when some module has the name. |
| `StateStorage.DecodeAccountData` | rpc/state/get_storage.go:103-106 | Account data succeeds exactly on 64 bytes or more, with the four balances read as 16-byte little-endian values in order. |
| `StateStorage.AccountDataRoundTrip` | rpc/state/get_storage.go:103-106 | Account data reads back unchanged. |
| `StateStorage.DecodeTripleRefCount` | rpc/state/get_storage.go:94-106 | The 80-byte layout reads four u32 counts, then the data. |
| `StateStorage.TripleRefCountRoundTrip` | rpc/state/get_storage.go:94-106 | The 80-byte layout reads back unchanged. |
| `StateStorage.DecodeWithProviders` | rpc/state/get_storage.go:107-119 | The 76-byte layout reads three u32 counts, then the data. |
| `StateStorage.WithProvidersRoundTrip` | rpc/state/get_storage.go:107-119 | The 76-byte layout reads back unchanged. |
| `StateStorage.DecodeOld` | rpc/state/get_storage.go:120-132 | The 72-byte layout reads the nonce and one reference count, then the data. |
| `StateStorage.OldRoundTrip` | rpc/state/get_storage.go:120-132 | The 72-byte layout reads back unchanged. |
| `StateStorage.GetStorageAccountInfo` | rpc/state/get_storage.go:84-137 | A failed fetch fails with its error, and an empty value fails as empty. The call succeeds exactly on 80, 76 or 72 bytes; any other length fails with the length. Per layout, the nonce, consumers, providers and data come from the stated byte ranges, and the old layout has no providers. |
| `StateStorage.AccountInfoLayoutsRoundTrip` | rpc/state/get_storage.go:93-135 | A record stored in any of the three layouts is read back as its normalised form. |
| `StateStorage.GetStorage` | rpc/state/get_storage.go:28-37 | The value is present exactly when the fetch succeeded with bytes. A fetch error is reported. An empty value is absent, with no error and nothing decoded. A present value reports the decode's error, or, when the decode succeeds, its result as the target. |
| `StateStorage.GetStorageRoundTrip` | rpc/state/get_storage.go:41-50 | A non-empty encoded value reads back as present, without error, and decoded to itself. |

## Left out

- The Go scale package's primitive codec is not part of this model. Its wire forms are modelled after the SCALE codec:
  - booleans are strictly 0 or 1;
  - an option is a 0/1 prefix;
  - compact integers have four modes, the big-integer mode carrying at most 67 bytes;
  - integers are little-endian;
  - texts and byte blobs are length-prefixed.
- V14 and V13 metadata: the Go code has no encoder for `MetadataV14`, `PortableTypeV14`, `Si1Type` or the registry shapes. The encoders here are reference wire forms, there to state what the decoders read.
- V14 modifier and storage-type encoders: the reflection-based encoding of the Go structs (which would write flags as bools) is not modelled. The encoder is the one-byte tag form the decoder reads.
- V13 records whose Go definitions are not part of this model are name-only, read and written as their name:
  - FunctionMetadataV4, EventMetadataV4, ModuleConstantMetadataV6 and ErrorMetadataV8;
  - ExtrinsicV11, modelled as a version byte and the signed-extension names.

  Also assumed rather than modelled from their source:
  - the field order of MapTypeV10 (hasher, key, value, linked) and DoubleMapTypeV10 (hasher, key1, key2, value, key2 hasher);
  - that StorageFunctionModifierV0 shares V14's one-byte form;
  - that StorageHasherV10 is one byte.
- Account layouts: the Go struct definitions are not part of this model. The three layouts are assumed to be u32 counts followed by four u128 balances, which is what their lengths of 80, 76 and 72 bytes imply.
- Hashing: the hash functions themselves (blake2, xxhash) are external. The model records which hasher a tag selects and in what order.
- `Hashers.HashFunc`: StorageHasherV10's decoder and its `HashFunc()` are not part of this model. Every byte decodes as a hasher tag, and the split is assumed: tags 0..6 select the seven known hashers and any other tag fails as unsupported. An unknown tag is therefore reported by `GetHashers`, not when the metadata is decoded.
- Locking:
  - `ldLk` is not modelled. Each resolver is a pure function of the metadata.
  - `findNameByCallIndex` and `getConstants` return while holding the lock on some paths, so a later call deadlocks. That concurrency behaviour is outside a sequential model.
- The RPC transport, block hashes, `getStorageRaw`'s hex decoding of the reply, `GetStorageRaw` and `GetStorageRawLatest` are not modelled. Their outcome is the `fetched` parameter.
- `GetStorage` and `GetStorageLatest` differ only in the block the fetch reads, so one member models both. The decoder is a parameter. When the Go decoder fails after partly filling the target, the model reports no target.
- JSON marshalling of type ids is not modelled. `Int64()` on ids is modelled as the unbounded id, since compact ids beyond 2^63 do not occur in registries.
- `uint8` conversions: V13's position-to-byte conversion is modelled as `% 256`. The V14 indices are bytes on the wire.
- The `Metadata` version dispatcher, `CallIndex.String()` (modelled as two-byte lower-case hex), the `getCallIndex` wrapper, and the Go test files are not modelled.
- `V13Resolve.CallIndexNamesCall`: this requires that no module has more than 256 calls. Beyond that the Go `uint8(ci)` wraps, and the returned position names a different call.

## Findings

| source | as written | input that shows it | evidently intended | confidence | as-written member | corrected member |
|---|---|---|---|---|---|---|
| types/metadataV14.go:243-253 | `PalletMetadataV14.Encode` writes the errors id unconditionally and never writes the `HasErrors` flag, which `Decode` reads before the errors payload | a pallet with no storage, calls, events or constants, with errors at id 0 and index 7: it is written as `[0,0,0,0,0,0,7]`, and that decodes to the same pallet with `HasErrors` false | write the flag, then the errors id only when the flag is set, mirroring `Decode` | not executed | `V14.PalletEncodeAsWrittenLosesErrors` | `V14.PalletRoundTrip` |
| types/metadataV14.go:109-111 | the map stores `&lookUp.Type`, the address of the range variable. Before Go 1.22 that is one variable for the whole loop, so every id points at the last entry's type | a registry `[(0, A), (1, B)]` with `A != B`: id 0 maps to `B` | each id maps to its own entry's type, the last entry winning when an id repeats | not executed | `V14.LookUpAliasedLosesTypes` | `V14.LookUpLastWins` |
