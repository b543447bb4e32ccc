/** Name resolution over legacy (V13) metadata. Unlike the registry format, calls and events
    are addressed by their position in the module's list, not by a declared index. */
module V13Resolve {
  import opened Scale
  import opened Search
  import opened CallNames
  import opened V13

  // ---------------------------------------------------------------- FindCallIndex

  predicate CallsModule(m: ModuleMetadataV13, moduleName: Text) {
    m.hasCalls && m.name == moduleName
  }

  /** Module `i` is the first module with calls named `moduleName`: the one that decides. */
  predicate FirstCallsModule(md: MetadataV13, moduleName: Text, i: nat) {
    i < |md.modules| && CallsModule(md.modules[i], moduleName) &&
    forall j :: 0 <= j < i ==> !CallsModule(md.modules[j], moduleName)
  }

  /** Position `k` of module `i`'s calls is the first call named `fn`. */
  predicate FirstCallNamed(m: ModuleMetadataV13, fn: Text, k: nat) {
    k < |m.calls| && m.calls[k].name == fn &&
    forall j :: 0 <= j < k ==> m.calls[j].name != fn
  }

  /** MetadataV13.FindCallIndex: the first module with calls whose name is the part of `call`
      before the first '.' decides. Its first call named by the second part gives the index
      (module index, position truncated to a byte); a module without such a call fails naming
      the method, and a name without a '.' reads past the split parts. Without a deciding
      module the call fails naming the module. */
  function FindCallIndex(md: MetadataV13, call: Text): (r: Result<CallIndex>)
    ensures r == Err(ModuleNotFoundForCall(SplitCall(call).0, call)) <==>
      forall j :: 0 <= j < |md.modules| ==> !CallsModule(md.modules[j], SplitCall(call).0)
    ensures forall i: nat :: FirstCallsModule(md, SplitCall(call).0, i) ==>
      && (SplitCall(call).1.None? ==> r == Err(IndexOutOfRange))
      && (SplitCall(call).1.Some? ==>
            (r.Ok? <==> exists k :: 0 <= k < |md.modules[i].calls| && md.modules[i].calls[k].name == SplitCall(call).1.value))
      && (SplitCall(call).1.Some? && r.Err? ==>
            r.error == MethodNotFound(SplitCall(call).1.value, md.modules[i].name, call))
      && (r.Ok? ==> exists k: nat :: FirstCallNamed(md.modules[i], SplitCall(call).1.value, k) &&
                                     r.value == CallIndex(md.modules[i].index, k % 256))
  {
    var (moduleName, fn) := SplitCall(call);
    match FirstIndex(md.modules, (m: ModuleMetadataV13) => CallsModule(m, moduleName))
    case None => Err(ModuleNotFoundForCall(moduleName, call))
    case Some(i) =>
      var m := md.modules[i];
      assert FirstCallsModule(md, moduleName, i);
      assert forall i': nat :: FirstCallsModule(md, moduleName, i') ==> i' == i;
      if fn.None? then Err(IndexOutOfRange)
      else
        match FirstIndex(m.calls, (f: FunctionMetadataV4) => f.name == fn.value)
        case None => Err(MethodNotFound(fn.value, m.name, call))
        case Some(k) =>
          assert FirstCallNamed(m, fn.value, k);
          Ok(CallIndex(m.index, k % 256))
  }

  /** Resolving "Module.function" and reading the call list back at the returned position
      gives the named call, in a module of that name and index, when no module has more calls
      than a byte can count. */
  lemma CallIndexNamesCall(md: MetadataV13, moduleName: Text, fn: Text)
    requires Dot !in moduleName && Dot !in fn
    requires forall j :: 0 <= j < |md.modules| ==> |md.modules[j].calls| <= 256
    ensures FindCallIndex(md, JoinCall(moduleName, fn)).Ok? ==>
      var ci := FindCallIndex(md, JoinCall(moduleName, fn)).value;
      exists i ::
        && 0 <= i < |md.modules|
        && md.modules[i].hasCalls
        && md.modules[i].name == moduleName
        && md.modules[i].index == ci.sectionIndex
        && ci.methodIndex < |md.modules[i].calls|
        && md.modules[i].calls[ci.methodIndex].name == fn
  {
    var call := JoinCall(moduleName, fn);
    SplitJoin(moduleName, fn);
    var r := FindCallIndex(md, call);
    var found := FirstIndex(md.modules, (m: ModuleMetadataV13) => CallsModule(m, moduleName));
    if r.Ok? && found.Some? {
      var first := found.value;
      assert FirstCallsModule(md, moduleName, first);
      var k: nat :| FirstCallNamed(md.modules[first], fn, k) && r.value == CallIndex(md.modules[first].index, k % 256);
      assert k % 256 == k;
    }
  }

  // ---------------------------------------------------------------- FindEventNamesForEventID

  predicate EventsModule(m: ModuleMetadataV13, moduleIndex: byte) {
    m.hasEvents && m.index == moduleIndex
  }

  predicate FirstEventsModule(md: MetadataV13, moduleIndex: byte, i: nat) {
    i < |md.modules| && EventsModule(md.modules[i], moduleIndex) &&
    forall j :: 0 <= j < i ==> !EventsModule(md.modules[j], moduleIndex)
  }

  /** MetadataV13.FindEventNamesForEventID: the first module with events at index `id[0]`
      decides, and `id[1]` is a position in its event list. */
  function FindEventNamesForEventID(md: MetadataV13, moduleIndex: byte, eventIndex: byte): (r: Result<(Text, Text)>)
    ensures r == Err(ModuleIndexOutOfRange(moduleIndex)) <==>
      forall j :: 0 <= j < |md.modules| ==> !EventsModule(md.modules[j], moduleIndex)
    ensures forall i: nat :: FirstEventsModule(md, moduleIndex, i) ==>
      && (r.Ok? <==> eventIndex < |md.modules[i].events|)
      && (r.Ok? ==> r.value == (md.modules[i].name, md.modules[i].events[eventIndex].name))
      && (r.Err? ==> r.error == EventIndexOutOfRange(eventIndex, md.modules[i].name))
  {
    match FirstIndex(md.modules, (m: ModuleMetadataV13) => EventsModule(m, moduleIndex))
    case None => Err(ModuleIndexOutOfRange(moduleIndex))
    case Some(i) =>
      var m := md.modules[i];
      assert FirstEventsModule(md, moduleIndex, i);
      assert forall i': nat :: FirstEventsModule(md, moduleIndex, i') ==> i' == i;
      if eventIndex as int >= |m.events| then Err(EventIndexOutOfRange(eventIndex, m.name))
      else Ok((m.name, m.events[eventIndex].name))
  }

  // ---------------------------------------------------------------- storage and module lookup

  predicate StorageModule(m: ModuleMetadataV13, moduleName: Text) {
    m.hasStorage && m.storage.prefix == moduleName
  }

  predicate FirstStorageModule(md: MetadataV13, moduleName: Text, i: nat) {
    i < |md.modules| && StorageModule(md.modules[i], moduleName) &&
    forall j :: 0 <= j < i ==> !StorageModule(md.modules[j], moduleName)
  }

  /** MetadataV13.FindStorageEntryMetadata: the first module with storage under that prefix
      decides; its first entry with that name is the answer, and without one the lookup fails
      naming the entry, later modules unexamined. */
  function FindStorageEntryMetadata(md: MetadataV13, moduleName: Text, fn: Text): (r: Result<StorageFunctionMetadataV13>)
    ensures r == Err(StorageModuleNotFound(moduleName)) <==>
      forall j :: 0 <= j < |md.modules| ==> !StorageModule(md.modules[j], moduleName)
    ensures forall i: nat :: FirstStorageModule(md, moduleName, i) ==>
      (r.Ok? <==> exists k :: 0 <= k < |md.modules[i].storage.items| && md.modules[i].storage.items[k].name == fn)
    ensures r.Ok? ==> r.value.name == fn && exists i: nat :: FirstStorageModule(md, moduleName, i) && r.value in md.modules[i].storage.items
    ensures r.Err? ==> r.error == StorageModuleNotFound(moduleName) || r.error == StorageNotFound(fn, moduleName)
    ensures r.Ok? ==>
      exists i: nat, k :: (FirstStorageModule(md, moduleName, i) &&
                          0 <= k < |md.modules[i].storage.items| && r.value == md.modules[i].storage.items[k] &&
                          forall k' :: 0 <= k' < k ==> md.modules[i].storage.items[k'].name != fn)
  {
    match FirstIndex(md.modules, (m: ModuleMetadataV13) => StorageModule(m, moduleName))
    case None => Err(StorageModuleNotFound(moduleName))
    case Some(i) =>
      var items := md.modules[i].storage.items;
      assert FirstStorageModule(md, moduleName, i);
      assert forall i': nat :: FirstStorageModule(md, moduleName, i') ==> i' == i;
      match FirstIndex(items, (e: StorageFunctionMetadataV13) => e.name == fn)
      case None => Err(StorageNotFound(fn, moduleName))
      case Some(k) =>
        assert items == md.modules[i].storage.items;
        Ok(items[k])
  }

  /** MetadataV13.ExistsModuleMetadata: whether any module has that name, whatever its flags. */
  function ExistsModuleMetadata(md: MetadataV13, moduleName: Text): (r: bool)
    ensures r <==> exists i :: 0 <= i < |md.modules| && md.modules[i].name == moduleName
  {
    FirstIndex(md.modules, (m: ModuleMetadataV13) => m.name == moduleName).Some?
  }
}
