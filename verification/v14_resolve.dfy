/** Name resolution over registry-format (V14) metadata. A pallet's calls and events are the
    variants of a registry type, found by comparing registry ids; the index a call or event
    is known by is the variant's declared index, never its position. Every resolver is a
    linear scan in which the first match wins. */
module V14Resolve {
  import opened Scale
  import opened Search
  import opened Hashers
  import opened CallNames
  import opened Portable
  import opened V14

  /** The variants of every registry entry whose id is `id`, in registry order: the entries
      are found by id equality, not by position in the registry. */
  function LookupVariants(lookup: seq<PortableTypeV14>, id: TypeId): (r: seq<Si1Variant>)
    ensures forall v :: v in r <==> exists i :: 0 <= i < |lookup| && lookup[i].id == id && v in VariantsOf(lookup[i].ty.def)
  {
    if |lookup| == 0 then []
    else
      var here := if lookup[0].id == id then VariantsOf(lookup[0].ty.def) else [];
      var later := LookupVariants(lookup[1..], id);
      assert forall v :: v in later <==> exists i :: 1 <= i < |lookup| && lookup[i].id == id && v in VariantsOf(lookup[i].ty.def) by {
        forall v ensures v in later <==> exists i :: 1 <= i < |lookup| && lookup[i].id == id && v in VariantsOf(lookup[i].ty.def) {
          if v in later {
            var i :| 0 <= i < |lookup[1..]| && lookup[1..][i].id == id && v in VariantsOf(lookup[1..][i].ty.def);
            assert lookup[i + 1] == lookup[1..][i];
          }
          if exists i :: 1 <= i < |lookup| && lookup[i].id == id && v in VariantsOf(lookup[i].ty.def) {
            var i :| 1 <= i < |lookup| && lookup[i].id == id && v in VariantsOf(lookup[i].ty.def);
            assert lookup[1..][i - 1] == lookup[i];
          }
        }
      }
      here + later
  }

  function CallVariants(md: MetadataV14, p: PalletMetadataV14): seq<Si1Variant> {
    LookupVariants(md.lookup, p.callsType)
  }

  function EventVariants(md: MetadataV14, p: PalletMetadataV14): seq<Si1Variant> {
    LookupVariants(md.lookup, p.eventsType)
  }

  /** A pallet FindCallIndex looks into: it has calls and is named `moduleName`. */
  predicate CallsPallet(p: PalletMetadataV14, moduleName: Text) {
    p.hasCalls && p.name == moduleName
  }

  predicate DeclaresCall(md: MetadataV14, p: PalletMetadataV14, moduleName: Text, fn: Text) {
    CallsPallet(p, moduleName) && exists k :: 0 <= k < |CallVariants(md, p)| && CallVariants(md, p)[k].name == fn
  }

  /** Pallet `i` is the first of `pallets` declaring call `fn` under `moduleName`, and `k` the
      position of the first variant so named. */
  predicate FirstCallAt(md: MetadataV14, pallets: seq<PalletMetadataV14>, moduleName: Text, fn: Text, i: int, k: int) {
    && 0 <= i < |pallets| && CallsPallet(pallets[i], moduleName)
    && 0 <= k < |CallVariants(md, pallets[i])| && CallVariants(md, pallets[i])[k].name == fn
    && (forall j :: 0 <= j < i ==> !DeclaresCall(md, pallets[j], moduleName, fn))
    && (forall k' :: 0 <= k' < k ==> CallVariants(md, pallets[i])[k'].name != fn)
  }

  lemma FirstCallShift(md: MetadataV14, pallets: seq<PalletMetadataV14>, moduleName: Text, fn: Text, i: nat, k: nat)
    requires |pallets| > 0 && !DeclaresCall(md, pallets[0], moduleName, fn)
    requires FirstCallAt(md, pallets[1..], moduleName, fn, i, k)
    ensures FirstCallAt(md, pallets, moduleName, fn, i + 1, k)
  {
    assert pallets[i + 1] == pallets[1..][i];
    forall j | 0 <= j < i + 1 ensures !DeclaresCall(md, pallets[j], moduleName, fn) {
      if j > 0 {
        assert pallets[j] == pallets[1..][j - 1];
      }
    }
  }

  /** The pallet loop of FindCallIndex, with `fn` the second segment of the call name when
      there is one. */
  function FindCallIn(md: MetadataV14, pallets: seq<PalletMetadataV14>, moduleName: Text, fn: Option<Text>, call: Text): (r: Result<CallIndex>)
    ensures fn.Some? ==>
      (r.Ok? <==> exists i :: 0 <= i < |pallets| && DeclaresCall(md, pallets[i], moduleName, fn.value))
    ensures r.Ok? ==>
      fn.Some? &&
      exists i, k :: (FirstCallAt(md, pallets, moduleName, fn.value, i, k) &&
                      r.value == CallIndex(pallets[i].index, CallVariants(md, pallets[i])[k].index))
    ensures r.Err? ==> r.error == ModuleNotFoundForCall(moduleName, call) || r.error == IndexOutOfRange
    ensures fn.Some? && r.Err? ==> r.error == ModuleNotFoundForCall(moduleName, call)
    ensures fn.None? ==>
      r.Err? && (r.error == IndexOutOfRange <==>
                 exists i :: 0 <= i < |pallets| && CallsPallet(pallets[i], moduleName) && |CallVariants(md, pallets[i])| > 0)
  {
    if |pallets| == 0 then Err(ModuleNotFoundForCall(moduleName, call))
    else
      var p := pallets[0];
      var later := FindCallIn(md, pallets[1..], moduleName, fn, call);
      assert forall i :: 1 <= i < |pallets| ==> pallets[i] == pallets[1..][i - 1];
      var vs := CallVariants(md, p);
      var here := if CallsPallet(p, moduleName) && |vs| > 0 && fn.Some? then FirstIndex(vs, (v: Si1Variant) => v.name == fn.value) else None;
      if here.Some? then
        assert FirstCallAt(md, pallets, moduleName, fn.value, 0, here.value);
        Ok(CallIndex(p.index, vs[here.value].index))
      else if CallsPallet(p, moduleName) && |vs| > 0 && fn.None? then Err(IndexOutOfRange)
      else
        assert fn.Some? ==> !DeclaresCall(md, p, moduleName, fn.value);
        assert later.Ok? ==>
          exists i, k :: (FirstCallAt(md, pallets, moduleName, fn.value, i, k) &&
                          later.value == CallIndex(pallets[i].index, CallVariants(md, pallets[i])[k].index)) by {
          if later.Ok? {
            var i, k :| FirstCallAt(md, pallets[1..], moduleName, fn.value, i, k) &&
                        later.value == CallIndex(pallets[1..][i].index, CallVariants(md, pallets[1..][i])[k].index);
            FirstCallShift(md, pallets, moduleName, fn.value, i, k);
          }
        }
        later
  }

  /** MetadataV14.FindCallIndex: "Module.function" resolves to the pallet's declared index and
      the matching variant's declared index. A missing module and a missing function give the
      same error; a name without a '.' fails as soon as a variant would be compared with the
      missing function name. */
  function FindCallIndex(md: MetadataV14, call: Text): (r: Result<CallIndex>)
    ensures SplitCall(call).1.Some? ==>
      (r.Ok? <==> exists i :: 0 <= i < |md.pallets| && DeclaresCall(md, md.pallets[i], SplitCall(call).0, SplitCall(call).1.value))
    ensures r.Ok? ==>
      SplitCall(call).1.Some? &&
      exists i, k :: (FirstCallAt(md, md.pallets, SplitCall(call).0, SplitCall(call).1.value, i, k) &&
                      r.value == CallIndex(md.pallets[i].index, CallVariants(md, md.pallets[i])[k].index))
    ensures r.Err? ==> r.error == ModuleNotFoundForCall(SplitCall(call).0, call) || r.error == IndexOutOfRange
    ensures SplitCall(call).1.Some? && r.Err? ==> r.error == ModuleNotFoundForCall(SplitCall(call).0, call)
    ensures SplitCall(call).1.None? ==>
      r.Err? && (r.error == IndexOutOfRange <==>
                 exists i :: 0 <= i < |md.pallets| && CallsPallet(md.pallets[i], SplitCall(call).0) && |CallVariants(md, md.pallets[i])| > 0)
  {
    FindCallIn(md, md.pallets, SplitCall(call).0, SplitCall(call).1, call)
  }

  /** A pallet FindEventNamesForEventID looks into: it has events and its index is `section`. */
  predicate EventsPallet(p: PalletMetadataV14, section: byte) {
    p.hasEvents && p.index == section
  }

  predicate DeclaresEvent(md: MetadataV14, p: PalletMetadataV14, section: byte, event: byte) {
    EventsPallet(p, section) && exists k :: 0 <= k < |EventVariants(md, p)| && EventVariants(md, p)[k].index == event
  }

  predicate FirstEventAt(md: MetadataV14, pallets: seq<PalletMetadataV14>, section: byte, event: byte, i: int, k: int) {
    && 0 <= i < |pallets| && EventsPallet(pallets[i], section)
    && 0 <= k < |EventVariants(md, pallets[i])| && EventVariants(md, pallets[i])[k].index == event
    && (forall j :: 0 <= j < i ==> !DeclaresEvent(md, pallets[j], section, event))
    && (forall k' :: 0 <= k' < k ==> EventVariants(md, pallets[i])[k'].index != event)
  }

  lemma FirstEventShift(md: MetadataV14, pallets: seq<PalletMetadataV14>, section: byte, event: byte, i: nat, k: nat)
    requires |pallets| > 0 && !DeclaresEvent(md, pallets[0], section, event)
    requires FirstEventAt(md, pallets[1..], section, event, i, k)
    ensures FirstEventAt(md, pallets, section, event, i + 1, k)
  {
    assert pallets[i + 1] == pallets[1..][i];
    forall j | 0 <= j < i + 1 ensures !DeclaresEvent(md, pallets[j], section, event) {
      if j > 0 {
        assert pallets[j] == pallets[1..][j - 1];
      }
    }
  }

  /** The pallet loop of FindEventNamesForEventID. */
  function FindEventIn(md: MetadataV14, pallets: seq<PalletMetadataV14>, section: byte, event: byte): (r: Result<(Text, Text)>)
    ensures r.Ok? <==> exists i :: 0 <= i < |pallets| && DeclaresEvent(md, pallets[i], section, event)
    ensures r.Ok? ==>
      exists i, k :: (FirstEventAt(md, pallets, section, event, i, k) &&
                      r.value == (pallets[i].name, EventVariants(md, pallets[i])[k].name))
    ensures r.Err? ==> r.error == ModuleIndexOutOfRange(section)
  {
    if |pallets| == 0 then Err(ModuleIndexOutOfRange(section))
    else
      var p := pallets[0];
      var later := FindEventIn(md, pallets[1..], section, event);
      assert forall i :: 1 <= i < |pallets| ==> pallets[i] == pallets[1..][i - 1];
      var vs := EventVariants(md, p);
      var here := if EventsPallet(p, section) then FirstIndex(vs, (v: Si1Variant) => v.index == event) else None;
      if here.Some? then
        assert FirstEventAt(md, pallets, section, event, 0, here.value);
        Ok((p.name, vs[here.value].name))
      else
        assert !DeclaresEvent(md, p, section, event);
        assert later.Ok? ==>
          exists i, k :: (FirstEventAt(md, pallets, section, event, i, k) &&
                          later.value == (pallets[i].name, EventVariants(md, pallets[i])[k].name)) by {
          if later.Ok? {
            var i, k :| FirstEventAt(md, pallets[1..], section, event, i, k) &&
                        later.value == (pallets[1..][i].name, EventVariants(md, pallets[1..][i])[k].name);
            FirstEventShift(md, pallets, section, event, i, k);
          }
        }
        later
  }

  /** MetadataV14.FindEventNamesForEventID: an event id resolves to the pallet's name and the
      name of the event variant whose declared index is the second byte. */
  function FindEventNamesForEventID(md: MetadataV14, section: byte, event: byte): (r: Result<(Text, Text)>)
    ensures r.Ok? <==> exists i :: 0 <= i < |md.pallets| && DeclaresEvent(md, md.pallets[i], section, event)
    ensures r.Ok? ==>
      exists i, k :: (FirstEventAt(md, md.pallets, section, event, i, k) &&
                      r.value == (md.pallets[i].name, EventVariants(md, md.pallets[i])[k].name))
    ensures r.Err? ==> r.error == ModuleIndexOutOfRange(section)
  {
    FindEventIn(md, md.pallets, section, event)
  }

  /** A pallet FindStorageEntryMetadata looks into: it has storage under prefix `moduleName`. */
  predicate StoragePallet(p: PalletMetadataV14, moduleName: Text) {
    p.hasStorage && p.storage.prefix == moduleName
  }

  predicate FirstStoragePallet(md: MetadataV14, moduleName: Text, i: nat) {
    i < |md.pallets| && StoragePallet(md.pallets[i], moduleName) &&
    forall j :: 0 <= j < i ==> !StoragePallet(md.pallets[j], moduleName)
  }

  /** MetadataV14.FindStorageEntryMetadata: the first pallet whose storage prefix matches decides;
      an entry missing there is not looked for in later pallets. */
  function FindStorageEntryMetadata(md: MetadataV14, moduleName: Text, fn: Text): (r: Result<StorageEntryMetadataV14>)
    ensures r == Err(StorageModuleNotFound(moduleName)) <==>
      forall j :: 0 <= j < |md.pallets| ==> !StoragePallet(md.pallets[j], moduleName)
    ensures forall i: nat :: FirstStoragePallet(md, moduleName, i) ==>
      (r.Ok? <==> exists k :: 0 <= k < |md.pallets[i].storage.items| && md.pallets[i].storage.items[k].name == fn)
    ensures r.Ok? ==> r.value.name == fn && exists i: nat :: FirstStoragePallet(md, moduleName, i) && r.value in md.pallets[i].storage.items
    ensures r.Err? ==> r.error == StorageModuleNotFound(moduleName) || r.error == StorageNotFound(fn, moduleName)
    ensures r.Ok? ==>
      exists i: nat, k :: (FirstStoragePallet(md, moduleName, i) &&
                          0 <= k < |md.pallets[i].storage.items| && r.value == md.pallets[i].storage.items[k] &&
                          forall k' :: 0 <= k' < k ==> md.pallets[i].storage.items[k'].name != fn)
  {
    match FirstIndex(md.pallets, (p: PalletMetadataV14) => StoragePallet(p, moduleName))
    case None => Err(StorageModuleNotFound(moduleName))
    case Some(i) =>
      var items := md.pallets[i].storage.items;
      assert FirstStoragePallet(md, moduleName, i);
      assert forall i': nat :: FirstStoragePallet(md, moduleName, i') ==> i' == i;
      match FirstIndex(items, (e: StorageEntryMetadataV14) => e.name == fn)
      case None => Err(StorageNotFound(fn, moduleName))
      case Some(k) =>
        assert items == md.pallets[i].storage.items;
        Ok(items[k])
  }

  /** MetadataV14.ExistsModuleMetadata: whether any pallet has the name, whatever its flags. */
  function ExistsModuleMetadata(md: MetadataV14, moduleName: Text): (r: bool)
    ensures r <==> exists i :: 0 <= i < |md.pallets| && md.pallets[i].name == moduleName
  {
    FirstIndex(md.pallets, (p: PalletMetadataV14) => p.name == moduleName).Some?
  }

  // ---------------------------------------------------------------- findNameByCallIndex

  /** A pallet findNameByCallIndex looks into: it has calls and its index is `section`. */
  predicate CallSectionPallet(p: PalletMetadataV14, section: byte) {
    p.hasCalls && p.index == section
  }

  /** The call variants of a pallet as the lookup map gives them. */
  function MappedCallVariants(md: MetadataV14, p: PalletMetadataV14): seq<Si1Variant>
    requires p.callsType in md.lookUpData
  {
    VariantsOf(md.lookUpData[p.callsType].def)
  }

  /** Every pallet selected by `section` has its call type in the map, with variants. */
  predicate SectionResolvable(md: MetadataV14, pallets: seq<PalletMetadataV14>, section: byte) {
    forall j :: 0 <= j < |pallets| && CallSectionPallet(pallets[j], section) ==>
      pallets[j].callsType in md.lookUpData && |MappedCallVariants(md, pallets[j])| > 0
  }

  predicate NamesCall(md: MetadataV14, p: PalletMetadataV14, section: byte, callId: byte) {
    && CallSectionPallet(p, section) && p.callsType in md.lookUpData
    && exists k :: 0 <= k < |MappedCallVariants(md, p)| && MappedCallVariants(md, p)[k].index == callId
  }

  /** A pallet at which the loop of findNameByCallIndex returns: one selected by `section`
      whose call type is missing from the map, has no variants, or names `callId`. */
  predicate StopsNameSearch(md: MetadataV14, p: PalletMetadataV14, section: byte, callId: byte) {
    && CallSectionPallet(p, section)
    && (p.callsType !in md.lookUpData || |MappedCallVariants(md, p)| == 0 || NamesCall(md, p, section, callId))
  }

  /** Pallet `i` is the first pallet at which the loop returns. */
  predicate FirstNameStopAt(md: MetadataV14, pallets: seq<PalletMetadataV14>, section: byte, callId: byte, i: int) {
    0 <= i < |pallets| && StopsNameSearch(md, pallets[i], section, callId) &&
    forall j :: 0 <= j < i ==> !StopsNameSearch(md, pallets[j], section, callId)
  }

  /** Position `k` holds the first variant whose declared index is `callId`. */
  predicate FirstIndexedVariant(vs: seq<Si1Variant>, callId: byte, k: int) {
    0 <= k < |vs| && vs[k].index == callId && forall k' :: 0 <= k' < k ==> vs[k'].index != callId
  }

  /** The pallet loop of findNameByCallIndex: the first selected pallet whose call type is
      missing from the map, or has no variants, ends the search with an error; the first one
      naming the method index ends it with the names; any other is passed over. */
  function FindNameIn(md: MetadataV14, pallets: seq<PalletMetadataV14>, section: byte, callId: byte): (r: Result<(Text, Text)>)
    ensures r == Err(CallNotFound) <==>
      forall j :: 0 <= j < |pallets| ==> !StopsNameSearch(md, pallets[j], section, callId)
    ensures forall i :: FirstNameStopAt(md, pallets, section, callId, i) ==>
      && (pallets[i].callsType !in md.lookUpData ==> r == Err(CallIdMissing(pallets[i].name, callId)))
      && (pallets[i].callsType in md.lookUpData && |MappedCallVariants(md, pallets[i])| == 0 ==>
            r == Err(NoCallVariants(pallets[i].name)))
      && (NamesCall(md, pallets[i], section, callId) ==>
            exists k :: FirstIndexedVariant(MappedCallVariants(md, pallets[i]), callId, k) &&
                        r == Ok((pallets[i].name, MappedCallVariants(md, pallets[i])[k].name)))
    ensures r.Ok? ==>
      exists i, k :: (0 <= i < |pallets| && NamesCall(md, pallets[i], section, callId) &&
                      0 <= k < |MappedCallVariants(md, pallets[i])| && MappedCallVariants(md, pallets[i])[k].index == callId &&
                      r.value == (pallets[i].name, MappedCallVariants(md, pallets[i])[k].name))
    ensures SectionResolvable(md, pallets, section) ==>
      (r.Ok? <==> exists i :: 0 <= i < |pallets| && NamesCall(md, pallets[i], section, callId))
    ensures r.Err? ==> r.error == CallNotFound || (exists name :: r.error == CallIdMissing(name, callId)) || r.error.NoCallVariants?
  {
    match FirstIndex(pallets, (p: PalletMetadataV14) => StopsNameSearch(md, p, section, callId))
    case None => Err(CallNotFound)
    case Some(i) =>
      var p := pallets[i];
      assert FirstNameStopAt(md, pallets, section, callId, i);
      assert forall i' :: FirstNameStopAt(md, pallets, section, callId, i') ==> i' == i;
      if p.callsType !in md.lookUpData then Err(CallIdMissing(p.name, callId))
      else
        var vs := MappedCallVariants(md, p);
        if |vs| == 0 then Err(NoCallVariants(p.name))
        else
          match FirstIndex(vs, (v: Si1Variant) => v.index == callId)
          case None => assert false; Err(CallNotFound)
          case Some(k) =>
            assert FirstIndexedVariant(vs, callId, k);
            Ok((p.name, vs[k].name))
  }

  /** MetadataV14.findNameByCallIndex: four hex digits name a pallet index and a call index;
      the pallet with calls at that index and its variant with that declared index give the
      two names. */
  function FindNameByCallIndex(md: MetadataV14, callIdx: Text): (r: Result<(Text, Text)>)
    ensures |callIdx| != 4 ==> r == Err(CallIndexLength(|callIdx|))
    ensures |callIdx| == 4 && DecodeHex(callIdx).None? ==> r == Err(CallIndexNotHex)
    ensures |callIdx| == 4 && DecodeHex(callIdx).Some? ==>
      |DecodeHex(callIdx).value| == 2 && r == FindNameIn(md, md.pallets, DecodeHex(callIdx).value[0], DecodeHex(callIdx).value[1])
  {
    if |callIdx| != 4 then Err(CallIndexLength(|callIdx|))
    else
      match DecodeHex(callIdx)
      case None => Err(CallIndexNotHex)
      case Some(data) => FindNameIn(md, md.pallets, data[0], data[1])
  }

  // ---------------------------------------------------------------- getConstants

  predicate DeclaresConstant(p: PalletMetadataV14, moduleName: Text, constant: Text) {
    p.name == moduleName && exists k :: 0 <= k < |p.constants| && p.constants[k].name == constant
  }

  /** Pallet `i` is the first of `pallets` named `moduleName` that declares `constant`, and `k`
      the position of its first constant so named: the one getConstants reports. */
  predicate FirstConstantAt(pallets: seq<PalletMetadataV14>, moduleName: Text, constant: Text, i: int, k: int) {
    && 0 <= i < |pallets| && pallets[i].name == moduleName
    && 0 <= k < |pallets[i].constants| && pallets[i].constants[k].name == constant
    && (forall j :: 0 <= j < i ==> !DeclaresConstant(pallets[j], moduleName, constant))
    && (forall k' :: 0 <= k' < k ==> pallets[i].constants[k'].name != constant)
  }

  /** The pallet loop of getConstants: the first pallet so named that declares the constant
      ends the search, with its value or with the error of a type missing from the map. */
  function GetConstantsIn(md: MetadataV14, pallets: seq<PalletMetadataV14>, moduleName: Text, constant: Text): (r: Result<(string, bytes)>)
    ensures r == Err(ConstantNotFound(moduleName, constant)) <==>
      forall j :: 0 <= j < |pallets| ==> !DeclaresConstant(pallets[j], moduleName, constant)
    ensures forall i, k :: FirstConstantAt(pallets, moduleName, constant, i, k) ==>
      && (r.Ok? <==> pallets[i].constants[k].typeId in md.lookUpData)
      && (r.Ok? ==> r.value == (PrimitiveValue(md.lookUpData[pallets[i].constants[k].typeId].def), pallets[i].constants[k].value))
      && (r.Err? ==> r.error == ConstantTypeMissing(moduleName, constant))
    ensures r.Ok? ==>
      exists i, k :: (FirstConstantAt(pallets, moduleName, constant, i, k) &&
                      pallets[i].constants[k].typeId in md.lookUpData &&
                      r.value == (PrimitiveValue(md.lookUpData[pallets[i].constants[k].typeId].def), pallets[i].constants[k].value))
    ensures r.Err? ==> r.error == ConstantNotFound(moduleName, constant) || r.error == ConstantTypeMissing(moduleName, constant)
  {
    match FirstIndex(pallets, (p: PalletMetadataV14) => DeclaresConstant(p, moduleName, constant))
    case None => Err(ConstantNotFound(moduleName, constant))
    case Some(i) =>
      var cs := pallets[i].constants;
      match FirstIndex(cs, (c: PalletConstantMetadataV14) => c.name == constant)
      case None => assert false; Err(ConstantNotFound(moduleName, constant))
      case Some(k) =>
        assert FirstConstantAt(pallets, moduleName, constant, i, k);
        assert forall i', k' :: FirstConstantAt(pallets, moduleName, constant, i', k') ==> i' == i && k' == k;
        if cs[k].typeId !in md.lookUpData then Err(ConstantTypeMissing(moduleName, constant))
        else Ok((PrimitiveValue(md.lookUpData[cs[k].typeId].def), cs[k].value))
  }

  /** MetadataV14.getConstants: the first constant so named in a pallet so named, whatever the
      pallet's flags; its type is reported by primitive name, and as empty text when the type
      is not a primitive. */
  function GetConstants(md: MetadataV14, moduleName: Text, constant: Text): (r: Result<(string, bytes)>)
    ensures r == Err(ConstantNotFound(moduleName, constant)) <==>
      forall j :: 0 <= j < |md.pallets| ==> !DeclaresConstant(md.pallets[j], moduleName, constant)
    ensures forall i, k :: FirstConstantAt(md.pallets, moduleName, constant, i, k) ==>
      && (r.Ok? <==> md.pallets[i].constants[k].typeId in md.lookUpData)
      && (r.Ok? ==> r.value == (PrimitiveValue(md.lookUpData[md.pallets[i].constants[k].typeId].def), md.pallets[i].constants[k].value))
      && (r.Err? ==> r.error == ConstantTypeMissing(moduleName, constant))
    ensures r.Ok? ==>
      exists i, k :: (FirstConstantAt(md.pallets, moduleName, constant, i, k) &&
                      md.pallets[i].constants[k].typeId in md.lookUpData &&
                      r.value == (PrimitiveValue(md.lookUpData[md.pallets[i].constants[k].typeId].def), md.pallets[i].constants[k].value))
    ensures r.Err? ==> r.error == ConstantNotFound(moduleName, constant) || r.error == ConstantTypeMissing(moduleName, constant)
  {
    GetConstantsIn(md, md.pallets, moduleName, constant)
  }

  /** With the map the registry builds, getConstants reports the first declared constant's
      value together with the primitive name of the registry entry carrying its type id. */
  lemma GetConstantsOfRegistry(md: MetadataV14, moduleName: Text, constant: Text, i: nat, k: nat, e: nat)
    requires md.lookUpData == BuildLookUp(md.lookup)
    requires FirstConstantAt(md.pallets, moduleName, constant, i, k)
    requires e < |md.lookup| && md.lookup[e].id == md.pallets[i].constants[k].typeId
    requires !IdRecurs(md.lookup, e, md.lookup[e].id)
    ensures GetConstants(md, moduleName, constant) == Ok((PrimitiveValue(md.lookup[e].ty.def), md.pallets[i].constants[k].value))
  {
    LookUpLastWins(md.lookup, e);
  }

  // ---------------------------------------------------------------- call index and call name

  predicate UniqueIds(lookup: seq<PortableTypeV14>) {
    forall i, j :: 0 <= i < j < |lookup| ==> lookup[i].id != lookup[j].id
  }

  predicate DistinctIndices(vs: seq<Si1Variant>) {
    forall k, k' :: 0 <= k < k' < |vs| ==> vs[k].index != vs[k'].index
  }

  /** Metadata in which a call index names at most one call: registry ids are unique, the map
      is the one the registry builds, pallets with calls have distinct indices, and the
      variants of each call type have distinct indices. */
  predicate CallsWellIndexed(md: MetadataV14) {
    && UniqueIds(md.lookup)
    && md.lookUpData == BuildLookUp(md.lookup)
    && (forall i, j :: 0 <= i < j < |md.pallets| && md.pallets[i].hasCalls && md.pallets[j].hasCalls ==>
          md.pallets[i].index != md.pallets[j].index)
    && (forall i :: 0 <= i < |md.pallets| && md.pallets[i].hasCalls ==> DistinctIndices(CallVariants(md, md.pallets[i])))
  }

  lemma {:induction false} LookupVariantsAbsent(lookup: seq<PortableTypeV14>, id: TypeId)
    requires forall j :: 0 <= j < |lookup| ==> lookup[j].id != id
    ensures LookupVariants(lookup, id) == []
  {
    if lookup != [] {
      assert lookup[0].id != id;
      forall j | 0 <= j < |lookup[1..]| ensures lookup[1..][j].id != id {
        assert lookup[1..][j] == lookup[j + 1];
      }
      LookupVariantsAbsent(lookup[1..], id);
    }
  }

  /** With unique ids, the entries found by id are the one entry the map holds for that id. */
  lemma {:induction false} LookupVariantsOfUniqueId(lookup: seq<PortableTypeV14>, i: nat)
    requires UniqueIds(lookup) && i < |lookup|
    ensures LookupVariants(lookup, lookup[i].id) == VariantsOf(lookup[i].ty.def)
  {
    var id := lookup[i].id;
    if i == 0 {
      forall j | 0 <= j < |lookup[1..]| ensures lookup[1..][j].id != id {
        assert lookup[1..][j] == lookup[j + 1];
      }
      LookupVariantsAbsent(lookup[1..], id);
      assert VariantsOf(lookup[0].ty.def) + [] == VariantsOf(lookup[0].ty.def);
    } else {
      assert lookup[0].id != id;
      assert lookup[1..][i - 1] == lookup[i];
      assert UniqueIds(lookup[1..]) by {
        forall a, b | 0 <= a < b < |lookup[1..]| ensures lookup[1..][a].id != lookup[1..][b].id {
          assert lookup[1..][a] == lookup[a + 1] && lookup[1..][b] == lookup[b + 1];
        }
      }
      LookupVariantsOfUniqueId(lookup[1..], i - 1);
      assert [] + LookupVariants(lookup[1..], id) == LookupVariants(lookup[1..], id);
    }
  }

  /** When pallet `i` is the only pallet with calls at `section`, and its variant `k` the only
      one with index `callId`, the pallet loop of findNameByCallIndex ends at them. */
  lemma {:induction false} FindNameInUnique(md: MetadataV14, pallets: seq<PalletMetadataV14>, section: byte, callId: byte, i: nat, k: nat)
    requires i < |pallets| && CallSectionPallet(pallets[i], section) && pallets[i].callsType in md.lookUpData
    requires forall j :: 0 <= j < |pallets| && j != i ==> !CallSectionPallet(pallets[j], section)
    requires k < |MappedCallVariants(md, pallets[i])| && MappedCallVariants(md, pallets[i])[k].index == callId
    requires DistinctIndices(MappedCallVariants(md, pallets[i]))
    ensures FindNameIn(md, pallets, section, callId) == Ok((pallets[i].name, MappedCallVariants(md, pallets[i])[k].name))
  {
    if i == 0 {
      var vs := MappedCallVariants(md, pallets[0]);
      var found := FirstIndex(vs, (v: Si1Variant) => v.index == callId);
      assert found.Some?;
      assert vs[found.value].index == vs[k].index;
      assert found.value == k;
    } else {
      assert !CallSectionPallet(pallets[0], section);
      assert pallets[1..][i - 1] == pallets[i];
      forall j | 0 <= j < |pallets[1..]| && j != i - 1 ensures !CallSectionPallet(pallets[1..][j], section) {
        assert pallets[1..][j] == pallets[j + 1];
      }
      FindNameInUnique(md, pallets[1..], section, callId, i - 1, k);
    }
  }

  /** In well-indexed metadata, rendering the index FindCallIndex gives for "Module.function"
      as four hex digits and resolving it with findNameByCallIndex gives back the module and
      function names. */
  lemma CallIndexNamesRoundTrip(md: MetadataV14, moduleName: Text, fn: Text)
    requires Dot !in moduleName && Dot !in fn
    requires CallsWellIndexed(md)
    ensures FindCallIndex(md, JoinCall(moduleName, fn)).Ok? ==>
      var ci := FindCallIndex(md, JoinCall(moduleName, fn)).value;
      FindNameByCallIndex(md, EncodeHex([ci.sectionIndex, ci.methodIndex])) == Ok((moduleName, fn))
  {
    var call := JoinCall(moduleName, fn);
    SplitJoin(moduleName, fn);
    var r := FindCallIndex(md, call);
    if r.Ok? {
      var ci := r.value;
      var i, k :| FirstCallAt(md, md.pallets, moduleName, fn, i, k) &&
                  ci == CallIndex(md.pallets[i].index, CallVariants(md, md.pallets[i])[k].index);
      var p := md.pallets[i];
      var v := CallVariants(md, p)[k];
      assert v in LookupVariants(md.lookup, p.callsType);
      var e :| 0 <= e < |md.lookup| && md.lookup[e].id == p.callsType && v in VariantsOf(md.lookup[e].ty.def);
      LookupVariantsOfUniqueId(md.lookup, e);
      assert !IdRecurs(md.lookup, e, md.lookup[e].id);
      LookUpLastWins(md.lookup, e);
      assert MappedCallVariants(md, p) == CallVariants(md, p);
      forall j | 0 <= j < |md.pallets| && j != i ensures !CallSectionPallet(md.pallets[j], ci.sectionIndex) {
        if j < i {
          assert md.pallets[j].index != md.pallets[i].index || !md.pallets[j].hasCalls;
        } else {
          assert md.pallets[i].index != md.pallets[j].index || !md.pallets[j].hasCalls;
        }
      }
      FindNameInUnique(md, md.pallets, ci.sectionIndex, ci.methodIndex, i, k);
      var hex := EncodeHex([ci.sectionIndex, ci.methodIndex]);
      HexRoundTrip([ci.sectionIndex, ci.methodIndex]);
      assert |hex| == 4;
    }
  }
}
