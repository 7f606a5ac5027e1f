/** The `Storage` property wrapper: `wrappedValue`, `projectedValue`, and the
    typed initialisers that read the store, pick the initial value and choose
    the notification decoder and the commit encoding. */
module PropertyWrapper {
  import opened RawValues
  import opened KeyValueStores
  import opened Codecs
  import opened CellSpec
  import opened Observation

  /** `Storage<Value>`: the reference cell and the commit handler, which stores
      `commit(v)` under the cell's key in the cell's store. */
  datatype Storage<!V> = Storage(ref: RefStorage<V>, commit: V -> Raw) {

    ghost predicate Valid()
      reads ref, ref.store
    {
      ref.observing && ref.store.Valid()
    }

    /** The decoder and encoder this wrapper was built with. */
    ghost function CodecOf(): (c: Codec<V>)
      ensures c.transform == ref.transform && c.encode == commit
    {
      Codec(ref.transform, commit)
    }

    /** The store's entries and the cell, as a CellSpec world. */
    ghost function Model(): (w: World<V>)
      reads ref, ref.store
      ensures w.entries == ref.store.entries && w.cell == ref.State()
    {
      World(ref.store.entries, ref.State())
    }

    /** `wrappedValue` get: the cell's value; neither the store nor the cell changes. */
    method WrappedValue() returns (v: V)
      ensures v == ref.value
    {
      v := ref.value;
    }

    /** `wrappedValue` set: commit to the store first, then assign the cell.
        `delivered` says whether the store's notification reached the cell
        during the commit; either way the cell ends up holding `newValue`. */
    method SetWrappedValue(newValue: V, delivered: bool)
      requires Valid()
      modifies ref, ref.store
      ensures Valid()
      ensures Model() == Step(CodecOf(), ref.key, old(Model()), LocalWrite(newValue, delivered))
      ensures ref.value == newValue
      ensures Lookup(ref.store.entries, ref.key) == commit(newValue)
      ensures forall k :: k != ref.key ==> Lookup(ref.store.entries, k) == Lookup(old(ref.store.entries), k)
    {
      var raw := commit(newValue);
      ref.store.Set(raw, ref.key);
      if delivered {
        ref.ObserveValue(ChangeValue(raw));
      }
      ref.value := newValue;
    }

    /** `projectedValue`: a binding whose get and set go through `wrappedValue`. */
    function ProjectedValue(): (b: Binding<V>)
      ensures b.source == this
    {
      Binding(this)
    }
  }

  datatype Binding<!V> = Binding(source: Storage<V>) {

    /** `get: { wrappedValue }` */
    method Get() returns (v: V)
      ensures v == source.ref.value
    {
      v := source.WrappedValue();
    }

    /** `set: { wrappedValue = $0 }` */
    method Set(newValue: V, delivered: bool)
      requires source.Valid()
      modifies source.ref, source.ref.store
      ensures source.Valid()
      ensures source.Model() == Step(source.CodecOf(), source.ref.key, old(source.Model()), LocalWrite(newValue, delivered))
      ensures source.ref.value == newValue
    {
      source.SetWrappedValue(newValue, delivered);
    }
  }

  /** Another writer stores `raw` under `key` in the cell's store; the store
      notifies the cell when `key` is the one it observes. */
  method ExternalChange<V>(s: Storage<V>, key: string, raw: Raw)
    requires s.Valid()
    modifies s.ref, s.ref.store
    ensures s.Valid()
    ensures s.Model() == Step(s.CodecOf(), s.ref.key, old(s.Model()), ExternalWrite(key, raw))
  {
    s.ref.store.Set(raw, key);
    if key == s.ref.key {
      s.ref.ObserveValue(ChangeValue(raw));
    }
  }

  /** `init(value:store:key:get:set:)` */
  method Make<V>(value: V, store: MemoryStore, key: string, get: Raw -> Option<V>, commit: V -> Raw) returns (s: Storage<V>)
    requires store.Valid()
    ensures fresh(s.ref) && s.Valid()
    ensures s.ref.store == store && s.ref.key == key
    ensures s.ref.transform == get && s.commit == commit
    ensures s.Model() == Initial(store.entries, value)
  {
    var ref := new RefStorage(value, store, key, get);
    s := Storage(ref, commit);
  }

  // ---------------------------------------------------------------------------
  // `init(wrappedValue:_:store:)`: the stored value if it has the right shape,
  // otherwise `wrappedValue`.

  method BoolStorage(wrappedValue: bool, key: string, store: MemoryStore) returns (s: Storage<bool>)
    requires store.Valid()
    ensures fresh(s.ref) && s.Valid() && s.ref.store == store && s.ref.key == key
    ensures s.CodecOf() == BoolCodec()
    ensures Coherent(s.CodecOf(), s.ref.key, s.Model())
    ensures var stored := store.ValueForKey(key);
            s.Model() == Initial(store.entries, if stored.RBool? then stored.b else wrappedValue)
  {
    var value := Loaded(AsBool, store.ValueForKey(key), wrappedValue);
    s := Make(value, store, key, BoolCodec().transform, BoolCodec().encode);
  }

  method IntStorage(wrappedValue: int, key: string, store: MemoryStore) returns (s: Storage<int>)
    requires store.Valid()
    ensures fresh(s.ref) && s.Valid() && s.ref.store == store && s.ref.key == key
    ensures s.CodecOf() == IntCodec()
    ensures Coherent(s.CodecOf(), s.ref.key, s.Model())
    ensures var stored := store.ValueForKey(key);
            s.Model() == Initial(store.entries, if stored.RInt? then stored.i else wrappedValue)
  {
    var value := Loaded(AsInt, store.ValueForKey(key), wrappedValue);
    s := Make(value, store, key, IntCodec().transform, IntCodec().encode);
  }

  method DoubleStorage(wrappedValue: Float64, key: string, store: MemoryStore) returns (s: Storage<Float64>)
    requires store.Valid()
    ensures fresh(s.ref) && s.Valid() && s.ref.store == store && s.ref.key == key
    ensures s.CodecOf() == DoubleCodec()
    ensures Coherent(s.CodecOf(), s.ref.key, s.Model())
    ensures var stored := store.ValueForKey(key);
            s.Model() == Initial(store.entries, if stored.RDouble? then stored.d else wrappedValue)
  {
    var value := Loaded(AsDouble, store.ValueForKey(key), wrappedValue);
    s := Make(value, store, key, DoubleCodec().transform, DoubleCodec().encode);
  }

  method StringStorage(wrappedValue: string, key: string, store: MemoryStore) returns (s: Storage<string>)
    requires store.Valid()
    ensures fresh(s.ref) && s.Valid() && s.ref.store == store && s.ref.key == key
    ensures s.CodecOf() == StringCodec()
    ensures Coherent(s.CodecOf(), s.ref.key, s.Model())
    ensures var stored := store.ValueForKey(key);
            s.Model() == Initial(store.entries, if stored.RString? then stored.s else wrappedValue)
  {
    var value := Loaded(AsString, store.ValueForKey(key), wrappedValue);
    s := Make(value, store, key, StringCodec().transform, StringCodec().encode);
  }

  /** The initial value comes from `url(forKey:)`, notifications are parsed
      from strings, and commits store the archived URL. */
  method UrlStorage(api: UrlApi, wrappedValue: Url, key: string, store: MemoryStore) returns (s: Storage<Url>)
    requires store.Valid()
    ensures fresh(s.ref) && s.Valid() && s.ref.store == store && s.ref.key == key
    ensures s.CodecOf() == UrlCodec(api)
    ensures var stored := api.urlForKey(store.ValueForKey(key));
            s.Model() == Initial(store.entries, if stored.Some? then stored.value else wrappedValue)
  {
    var value := api.urlForKey(store.ValueForKey(key)).GetOr(wrappedValue);
    s := Make(value, store, key, UrlCodec(api).transform, UrlCodec(api).encode);
  }

  /** The initial value comes from `data(forKey:)`. */
  method DataStorage(wrappedValue: seq<Byte>, key: string, store: MemoryStore) returns (s: Storage<seq<Byte>>)
    requires store.Valid()
    ensures fresh(s.ref) && s.Valid() && s.ref.store == store && s.ref.key == key
    ensures s.CodecOf() == DataCodec()
    ensures Coherent(s.CodecOf(), s.ref.key, s.Model())
    ensures var stored := store.ValueForKey(key);
            s.Model() == Initial(store.entries, if stored.RData? then stored.bytes else wrappedValue)
  {
    var value := Loaded(AsData, store.ValueForKey(key), wrappedValue);
    s := Make(value, store, key, DataCodec().transform, DataCodec().encode);
  }

  // ---------------------------------------------------------------------------
  // `init(_:store:)` for optional values: the stored value if it has the right
  // shape, otherwise `nil`.

  method OptionalBoolStorage(key: string, store: MemoryStore) returns (s: Storage<Option<bool>>)
    requires store.Valid()
    ensures fresh(s.ref) && s.Valid() && s.ref.store == store && s.ref.key == key
    ensures s.CodecOf() == OptionalCodec(BoolCodec())
    ensures Coherent(s.CodecOf(), s.ref.key, s.Model())
    ensures var stored := store.ValueForKey(key);
            s.Model() == Initial(store.entries, if stored.RBool? then Some(stored.b) else None)
  {
    var codec := OptionalCodec(BoolCodec());
    var value := Loaded(codec.transform, store.ValueForKey(key), None);
    s := Make(value, store, key, codec.transform, codec.encode);
  }

  method OptionalIntStorage(key: string, store: MemoryStore) returns (s: Storage<Option<int>>)
    requires store.Valid()
    ensures fresh(s.ref) && s.Valid() && s.ref.store == store && s.ref.key == key
    ensures s.CodecOf() == OptionalCodec(IntCodec())
    ensures Coherent(s.CodecOf(), s.ref.key, s.Model())
    ensures var stored := store.ValueForKey(key);
            s.Model() == Initial(store.entries, if stored.RInt? then Some(stored.i) else None)
  {
    var codec := OptionalCodec(IntCodec());
    var value := Loaded(codec.transform, store.ValueForKey(key), None);
    s := Make(value, store, key, codec.transform, codec.encode);
  }

  method OptionalDoubleStorage(key: string, store: MemoryStore) returns (s: Storage<Option<Float64>>)
    requires store.Valid()
    ensures fresh(s.ref) && s.Valid() && s.ref.store == store && s.ref.key == key
    ensures s.CodecOf() == OptionalCodec(DoubleCodec())
    ensures Coherent(s.CodecOf(), s.ref.key, s.Model())
    ensures var stored := store.ValueForKey(key);
            s.Model() == Initial(store.entries, if stored.RDouble? then Some(stored.d) else None)
  {
    var codec := OptionalCodec(DoubleCodec());
    var value := Loaded(codec.transform, store.ValueForKey(key), None);
    s := Make(value, store, key, codec.transform, codec.encode);
  }

  method OptionalStringStorage(key: string, store: MemoryStore) returns (s: Storage<Option<string>>)
    requires store.Valid()
    ensures fresh(s.ref) && s.Valid() && s.ref.store == store && s.ref.key == key
    ensures s.CodecOf() == OptionalCodec(StringCodec())
    ensures Coherent(s.CodecOf(), s.ref.key, s.Model())
    ensures var stored := store.ValueForKey(key);
            s.Model() == Initial(store.entries, if stored.RString? then Some(stored.s) else None)
  {
    var codec := OptionalCodec(StringCodec());
    var value := Loaded(codec.transform, store.ValueForKey(key), None);
    s := Make(value, store, key, codec.transform, codec.encode);
  }

  /** The initial value comes from `url(forKey:)`; commits store `absoluteString`. */
  method OptionalUrlStorage(api: UrlApi, key: string, store: MemoryStore) returns (s: Storage<Option<Url>>)
    requires store.Valid()
    ensures fresh(s.ref) && s.Valid() && s.ref.store == store && s.ref.key == key
    ensures s.CodecOf() == OptionalUrlCodec(api)
    ensures s.Model() == Initial(store.entries, api.urlForKey(store.ValueForKey(key)))
  {
    var value := api.urlForKey(store.ValueForKey(key));
    s := Make(value, store, key, OptionalUrlCodec(api).transform, OptionalUrlCodec(api).encode);
  }

  method OptionalDataStorage(key: string, store: MemoryStore) returns (s: Storage<Option<seq<Byte>>>)
    requires store.Valid()
    ensures fresh(s.ref) && s.Valid() && s.ref.store == store && s.ref.key == key
    ensures s.CodecOf() == OptionalCodec(DataCodec())
    ensures Coherent(s.CodecOf(), s.ref.key, s.Model())
    ensures var stored := store.ValueForKey(key);
            s.Model() == Initial(store.entries, if stored.RData? then Some(stored.bytes) else None)
  {
    var codec := OptionalCodec(DataCodec());
    var value := Loaded(codec.transform, store.ValueForKey(key), None);
    s := Make(value, store, key, codec.transform, codec.encode);
  }

  // ---------------------------------------------------------------------------
  // `init(wrappedValue:_:store:)` for `RawRepresentable` values: the case whose
  // raw value is stored, otherwise `wrappedValue`.

  method StringEnumStorage<E(!new)>(rr: RawRepresentable<E, string>, wrappedValue: E, key: string, store: MemoryStore)
    returns (s: Storage<E>)
    requires store.Valid()
    ensures fresh(s.ref) && s.Valid() && s.ref.store == store && s.ref.key == key
    ensures s.CodecOf() == StringEnumCodec(rr)
    ensures var stored := store.ValueForKey(key);
            s.Model() == Initial(store.entries,
              if stored.RString? && rr.initRawValue(stored.s).Some? then rr.initRawValue(stored.s).value
              else wrappedValue)
  {
    var value := LoadedEnum(rr, AsString, store.ValueForKey(key), wrappedValue);
    s := Make(value, store, key, StringEnumCodec(rr).transform, StringEnumCodec(rr).encode);
  }

  method IntEnumStorage<E(!new)>(rr: RawRepresentable<E, int>, wrappedValue: E, key: string, store: MemoryStore)
    returns (s: Storage<E>)
    requires store.Valid()
    ensures fresh(s.ref) && s.Valid() && s.ref.store == store && s.ref.key == key
    ensures s.CodecOf() == IntEnumCodec(rr)
    ensures var stored := store.ValueForKey(key);
            s.Model() == Initial(store.entries,
              if stored.RInt? && rr.initRawValue(stored.i).Some? then rr.initRawValue(stored.i).value
              else wrappedValue)
  {
    var value := LoadedEnum(rr, AsInt, store.ValueForKey(key), wrappedValue);
    s := Make(value, store, key, IntEnumCodec(rr).transform, IntEnumCodec(rr).encode);
  }

  // ---------------------------------------------------------------------------
  // Clients.

  /** Through the binding, a write reads back as the value written. */
  method BindingWriteThenRead<V>(b: Binding<V>, v: V, delivered: bool) returns (r: V)
    requires b.source.Valid()
    modifies b.source.ref, b.source.ref.store
    ensures b.source.Valid() && r == v
  {
    b.Set(v, delivered);
    r := b.Get();
  }

  /** An integer cell under "int" created with 1 over an empty store reads 1;
      after `wrappedValue = 2` it reads 2 and the store holds 2; after another
      writer stores 3 it reads 3. */
  method IntCellScenario() returns (before: int, afterWrite: int, stored: Raw, afterExternal: int)
    ensures before == 1 && afterWrite == 2 && stored == RInt(2) && afterExternal == 3
  {
    var store := new MemoryStore(map[]);
    var s := IntStorage(1, "int", store);
    before := s.WrappedValue();
    s.SetWrappedValue(2, true);
    afterWrite := s.WrappedValue();
    stored := store.ValueForKey("int");
    ExternalChange(s, "int", RInt(3));
    afterExternal := s.WrappedValue();
  }

  /** An optional integer cell over an empty store reads `nil`; a write through
      its binding reads back through the binding. */
  method OptionalBindingScenario(v: int) returns (before: Option<int>, after: Option<int>)
    ensures before == None && after == Some(v)
  {
    var store := new MemoryStore(map[]);
    var s := OptionalIntStorage("int", store);
    var binding := s.ProjectedValue();
    before := binding.Get();
    binding.Set(Some(v), false);
    after := binding.Get();
  }
}
