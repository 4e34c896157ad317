/** The typed accessor layer: a once-set store handle and the blocking
    get/put/contains/remove/getAll operations over its snapshot. The store is
    a value here; every blocking call takes the helper state and a put or
    remove returns the helper state after the edit. */
module DataStoreHelper {
  import opened Wrappers
  import opened Preferences

  /** One persistent preference container: the name that identifies it and
      its current contents. */
  datatype Store = Store(name: string, data: Snapshot)

  /** The process-wide helper state: the store handle, set at most once. */
  datatype Helper = Helper(store: Option<Store>)

  /** Touching the handle before `initialize` raises in the source. */
  datatype HelperError = Uninitialized

  /** The state before any `initialize` call. */
  const Fresh: Helper := Helper(None)

  predicate Initialized(h: Helper) {
    h.store.Some?
  }

  /** The latest snapshot of the initialised store (`dataStore.data.first()`). */
  function Data(h: Helper): Snapshot
    requires Initialized(h)
  {
    h.store.value.data
  }

  /** Both states hold a handle, and it is the same store: edits change a
      store's contents, never which store the helper holds. */
  predicate SameStore(h: Helper, h': Helper) {
    Initialized(h) && Initialized(h') && h'.store.value.name == h.store.value.name
  }

  // ----- lifecycle -----

  /** `initialize(dataStore)`: only the first call sets the handle. */
  function Initialize(h: Helper, s: Store): (r: Helper)
    ensures Initialized(r)
    ensures Initialized(h) ==> r == h
    ensures !Initialized(h) ==> r.store == Some(s)
  {
    if !Initialized(h) then Helper(Some(s)) else h
  }

  /** A run of `initialize` calls, in order. */
  function InitializeAll(h: Helper, stores: seq<Store>): (r: Helper)
    ensures Initialized(h) ==> r == h
    ensures !Initialized(h) && |stores| > 0 ==> r.store == Some(stores[0])
    ensures !Initialized(h) && |stores| == 0 ==> r == h
    decreases |stores|
  {
    if |stores| == 0 then h
    else InitializeAll(Initialize(h, stores[0]), stores[1..])
  }

  // ----- edits -----

  /** `dataStore.edit { it[key] = v }`, run to completion. */
  function Edit(h: Helper, key: Key, v: Value): (r: Result<Helper, HelperError>)
    requires v.KindOf() == key.kind
    ensures r.Success? <==> Initialized(h)
    ensures r.Success? ==> SameStore(h, r.value)
    ensures r.Success? ==> Data(r.value).Keys == Data(h).Keys + {key}
    ensures r.Success? ==> Data(r.value)[key] == v
    ensures r.Success? ==> forall k | k in Data(h) && k != key :: Data(r.value)[k] == Data(h)[k]
  {
    if !Initialized(h) then Failure(Uninitialized)
    else Success(Helper(Some(Store(h.store.value.name, Write(Data(h), key, v)))))
  }

  /** `putIntSync(key, value)`. */
  function PutIntSync(h: Helper, key: string, value: Int32): (r: Result<Helper, HelperError>)
    ensures r.Success? <==> Initialized(h)
    ensures r.Success? ==> SameStore(h, r.value) && Read(Data(r.value), IntKey(key)) == Some(IntValue(value))
    ensures r.Success? ==> Data(r.value).Keys == Data(h).Keys + {IntKey(key)}
    ensures r.Success? ==> forall k | k in Data(h) && k != IntKey(key) :: k in Data(r.value) && Data(r.value)[k] == Data(h)[k]
  {
    Edit(h, IntKey(key), IntValue(value))
  }

  /** `putLongSync(key, value)`. */
  function PutLongSync(h: Helper, key: string, value: Int64): (r: Result<Helper, HelperError>)
    ensures r.Success? <==> Initialized(h)
    ensures r.Success? ==> SameStore(h, r.value) && Read(Data(r.value), LongKey(key)) == Some(LongValue(value))
    ensures r.Success? ==> Data(r.value).Keys == Data(h).Keys + {LongKey(key)}
    ensures r.Success? ==> forall k | k in Data(h) && k != LongKey(key) :: k in Data(r.value) && Data(r.value)[k] == Data(h)[k]
  {
    Edit(h, LongKey(key), LongValue(value))
  }

  /** `putFloatSync(key, value)`. */
  function PutFloatSync(h: Helper, key: string, value: Float32): (r: Result<Helper, HelperError>)
    ensures r.Success? <==> Initialized(h)
    ensures r.Success? ==> SameStore(h, r.value) && Read(Data(r.value), FloatKey(key)) == Some(FloatValue(value))
    ensures r.Success? ==> Data(r.value).Keys == Data(h).Keys + {FloatKey(key)}
    ensures r.Success? ==> forall k | k in Data(h) && k != FloatKey(key) :: k in Data(r.value) && Data(r.value)[k] == Data(h)[k]
  {
    Edit(h, FloatKey(key), FloatValue(value))
  }

  /** `putBooleanSync(key, value)`. */
  function PutBooleanSync(h: Helper, key: string, value: bool): (r: Result<Helper, HelperError>)
    ensures r.Success? <==> Initialized(h)
    ensures r.Success? ==> SameStore(h, r.value) && Read(Data(r.value), BooleanKey(key)) == Some(BooleanValue(value))
    ensures r.Success? ==> Data(r.value).Keys == Data(h).Keys + {BooleanKey(key)}
    ensures r.Success? ==> forall k | k in Data(h) && k != BooleanKey(key) :: k in Data(r.value) && Data(r.value)[k] == Data(h)[k]
  {
    Edit(h, BooleanKey(key), BooleanValue(value))
  }

  /** How a nullable string is written: null becomes the empty string. */
  function Sentinel(value: Option<string>): (s: string)
    ensures value.None? ==> s == ""
    ensures value.Some? ==> s == value.value
  {
    value.GetOr("")
  }

  /** How a stored string is read back: the empty string becomes null. */
  function Nullable(s: string): (r: Option<string>)
    ensures r.None? <==> s == ""
    ensures r.Some? ==> r.value == s
  {
    if s == "" then None else Some(s)
  }

  /** `putStringSync(key, value)`: a null value is stored as "". */
  function PutStringSync(h: Helper, key: string, value: Option<string>): (r: Result<Helper, HelperError>)
    ensures r.Success? <==> Initialized(h)
    ensures r.Success? ==> SameStore(h, r.value)
    ensures r.Success? && value.None? ==> Read(Data(r.value), StringKey(key)) == Some(StringValue(""))
    ensures r.Success? && value.Some? ==> Read(Data(r.value), StringKey(key)) == Some(StringValue(value.value))
    ensures r.Success? ==> Data(r.value).Keys == Data(h).Keys + {StringKey(key)}
    ensures r.Success? ==> forall k | k in Data(h) && k != StringKey(key) :: k in Data(r.value) && Data(r.value)[k] == Data(h)[k]
  {
    Edit(h, StringKey(key), StringValue(Sentinel(value)))
  }

  /** `removeSync(key)`: deletes the string-keyed entry named `key`. */
  function RemoveSync(h: Helper, key: string): (r: Result<Helper, HelperError>)
    ensures r.Success? <==> Initialized(h)
    ensures r.Success? ==> SameStore(h, r.value)
    ensures r.Success? ==> StringKey(key) !in Data(r.value)
    ensures r.Success? ==> Data(r.value).Keys == Data(h).Keys - {StringKey(key)}
    ensures r.Success? ==> forall k | k in Data(r.value) :: Data(r.value)[k] == Data(h)[k]
  {
    if !Initialized(h) then Failure(Uninitialized)
    else Success(Helper(Some(Store(h.store.value.name, Delete(Data(h), StringKey(key))))))
  }

  // ----- snapshot reads (the `*Internal` readers) -----

  /** `getIntInternal`: presence test, then indexed read; null when absent. */
  function GetIntInternal(p: Snapshot, key: string): (r: Option<Int32>)
    ensures r.Some? <==> IntKey(key) in p
    ensures r.Some? ==> p[IntKey(key)] == IntValue(r.value)
  {
    if IntKey(key) in p then Some(p[IntKey(key)].i) else None
  }

  /** `getLongInternal`: presence test, then indexed read; null when absent. */
  function GetLongInternal(p: Snapshot, key: string): (r: Option<Int64>)
    ensures r.Some? <==> LongKey(key) in p
    ensures r.Some? ==> p[LongKey(key)] == LongValue(r.value)
  {
    if LongKey(key) in p then Some(p[LongKey(key)].l) else None
  }

  /** `getFloatInternal`: a bare indexed read, null when absent. */
  function GetFloatInternal(p: Snapshot, key: string): (r: Option<Float32>)
    ensures r.Some? <==> FloatKey(key) in p
    ensures r.Some? ==> p[FloatKey(key)] == FloatValue(r.value)
  {
    match Read(p, FloatKey(key))
    case Some(v) => Some(v.f)
    case None => None
  }

  /** `getBooleanInternal`: a (present, value) pair; (false, false) when absent. */
  function GetBooleanInternal(p: Snapshot, key: string): (r: (bool, bool))
    ensures r.0 <==> BooleanKey(key) in p
    ensures r.0 ==> p[BooleanKey(key)] == BooleanValue(r.1)
    ensures !r.0 ==> !r.1
  {
    if BooleanKey(key) in p then (true, p[BooleanKey(key)].b) else (false, false)
  }

  /** `getStringInternal`: the stored string tagged "prefValue", or the tag
      "default" when absent (here: `Some` and `None`). */
  function GetStringInternal(p: Snapshot, key: string): (r: Option<string>)
    ensures r.Some? <==> StringKey(key) in p
    ensures r.Some? ==> p[StringKey(key)] == StringValue(r.value)
  {
    if StringKey(key) in p then Some(p[StringKey(key)].s) else None
  }

  // ----- blocking typed gets -----

  /** `getInt(key, default)`: the default only when the key is absent. */
  function GetInt(h: Helper, key: string, defaultValue: Int32): (r: Result<Int32, HelperError>)
    ensures r.Success? <==> Initialized(h)
    ensures r.Success? && IntKey(key) in Data(h) ==> Data(h)[IntKey(key)] == IntValue(r.value)
    ensures r.Success? && IntKey(key) !in Data(h) ==> r.value == defaultValue
  {
    if !Initialized(h) then Failure(Uninitialized)
    else Success(GetIntInternal(Data(h), key).GetOr(defaultValue))
  }

  /** `getLong(key, default)`: the default only when the key is absent. */
  function GetLong(h: Helper, key: string, defaultValue: Int64): (r: Result<Int64, HelperError>)
    ensures r.Success? <==> Initialized(h)
    ensures r.Success? && LongKey(key) in Data(h) ==> Data(h)[LongKey(key)] == LongValue(r.value)
    ensures r.Success? && LongKey(key) !in Data(h) ==> r.value == defaultValue
  {
    if !Initialized(h) then Failure(Uninitialized)
    else Success(GetLongInternal(Data(h), key).GetOr(defaultValue))
  }

  /** `getFloat(key, default)`: the default only when the key is absent. */
  function GetFloat(h: Helper, key: string, defaultValue: Float32): (r: Result<Float32, HelperError>)
    ensures r.Success? <==> Initialized(h)
    ensures r.Success? && FloatKey(key) in Data(h) ==> Data(h)[FloatKey(key)] == FloatValue(r.value)
    ensures r.Success? && FloatKey(key) !in Data(h) ==> r.value == defaultValue
  {
    if !Initialized(h) then Failure(Uninitialized)
    else Success(GetFloatInternal(Data(h), key).GetOr(defaultValue))
  }

  /** `getBoolean(key, default)`: the default only when the key is absent. */
  function GetBoolean(h: Helper, key: string, defaultValue: bool): (r: Result<bool, HelperError>)
    ensures r.Success? <==> Initialized(h)
    ensures r.Success? && BooleanKey(key) in Data(h) ==> Data(h)[BooleanKey(key)] == BooleanValue(r.value)
    ensures r.Success? && BooleanKey(key) !in Data(h) ==> r.value == defaultValue
  {
    if !Initialized(h) then Failure(Uninitialized)
    else
      var pair := GetBooleanInternal(Data(h), key);
      Success(if pair.0 then pair.1 else defaultValue)
  }

  /** `getString(key, default)`: a stored "" reads as null, and so does a
      default of "" on an absent key; the result is never "". */
  function GetString(h: Helper, key: string, defaultValue: Option<string>): (r: Result<Option<string>, HelperError>)
    ensures r.Success? <==> Initialized(h)
    ensures r.Success? ==> r.value != Some("")
    ensures r.Success? && StringKey(key) in Data(h) ==>
      (r.value.None? <==> Data(h)[StringKey(key)] == StringValue(""))
    ensures r.Success? && StringKey(key) in Data(h) && r.value.Some? ==>
      Data(h)[StringKey(key)] == StringValue(r.value.value)
    ensures r.Success? && StringKey(key) !in Data(h) ==>
      r.value == defaultValue || (defaultValue == Some("") && r.value.None?)
  {
    if !Initialized(h) then Failure(Uninitialized)
    else
      match GetStringInternal(Data(h), key)
      case Some(stored) =>
        Success(Nullable(stored))
      case None =>
        if defaultValue == Some("") then Success(None) else Success(defaultValue)
  }

  // ----- presence tests -----

  /** `containsInt(key)`: presence of the int-typed key. */
  function ContainsInt(h: Helper, key: string): (r: Result<bool, HelperError>)
    ensures r.Success? <==> Initialized(h)
    ensures r.Success? ==> (r.value <==> IntKey(key) in Data(h))
  {
    if !Initialized(h) then Failure(Uninitialized) else Success(IntKey(key) in Data(h))
  }

  /** `containsLong(key)`: presence of the long-typed key. */
  function ContainsLong(h: Helper, key: string): (r: Result<bool, HelperError>)
    ensures r.Success? <==> Initialized(h)
    ensures r.Success? ==> (r.value <==> LongKey(key) in Data(h))
  {
    if !Initialized(h) then Failure(Uninitialized) else Success(LongKey(key) in Data(h))
  }

  /** `containsFloat(key)`: presence of the float-typed key. */
  function ContainsFloat(h: Helper, key: string): (r: Result<bool, HelperError>)
    ensures r.Success? <==> Initialized(h)
    ensures r.Success? ==> (r.value <==> FloatKey(key) in Data(h))
  {
    if !Initialized(h) then Failure(Uninitialized) else Success(FloatKey(key) in Data(h))
  }

  /** `containsBoolean(key)`: presence of the boolean-typed key. */
  function ContainsBoolean(h: Helper, key: string): (r: Result<bool, HelperError>)
    ensures r.Success? <==> Initialized(h)
    ensures r.Success? ==> (r.value <==> BooleanKey(key) in Data(h))
  {
    if !Initialized(h) then Failure(Uninitialized) else Success(BooleanKey(key) in Data(h))
  }

  /** `containsString(key)`: presence of the string-typed key. */
  function ContainsString(h: Helper, key: string): (r: Result<bool, HelperError>)
    ensures r.Success? <==> Initialized(h)
    ensures r.Success? ==> (r.value <==> StringKey(key) in Data(h))
  {
    if !Initialized(h) then Failure(Uninitialized) else Success(StringKey(key) in Data(h))
  }

  /** `containsInternal(key)`: scans the entries one by one and stops at the
      first whose name is `key`, whatever its kind. */
  method ContainsInternal(p: Snapshot, key: string) returns (found: bool)
    ensures found <==> HasName(p, key)
  {
    var remaining := p.Keys;
    while remaining != {}
      invariant remaining <= p.Keys
      invariant forall k | k in p.Keys - remaining :: k.name != key
      decreases |remaining|
    {
      var k :| k in remaining;
      if k.name == key {
        return true;
      }
      remaining := remaining - {k};
    }
    return false;
  }

  /** `contains(key)`: the kind-agnostic presence test. */
  method Contains(h: Helper, key: string) returns (r: Result<bool, HelperError>)
    ensures r.Success? <==> Initialized(h)
    ensures r.Success? ==> (r.value <==> HasName(Data(h), key))
  {
    if !Initialized(h) {
      return Failure(Uninitialized);
    }
    var found := ContainsInternal(Data(h), key);
    return Success(found);
  }

  /** `getAll()`: the whole current snapshot, keys with their values. */
  function GetAll(h: Helper): (r: Result<Snapshot, HelperError>)
    ensures r.Success? <==> Initialized(h)
    ensures r.Success? ==> r.value == Data(h)
  {
    if !Initialized(h) then Failure(Uninitialized) else Success(Data(h))
  }
}
