# easy-datastore: the typed accessor layer, in Dafny

This project models `DataStoreHelper`, the singleton of the easy-datastore
library that wraps an Android Preferences DataStore. The helper holds one
store handle, set by the first `initialize` call. It offers blocking typed
accessors over the store's current snapshot of key/value entries:
`put*Sync`, `get*`, `contains*`, `contains`, `removeSync` and `getAll`.
The value kinds are int, long, float, boolean and string.

The model is functional. A store is a value (`Store`) holding its name and
its snapshot. The helper state (`Helper`) holds an `Option<Store>`. Every
blocking accessor is a pure function (or, for the scanning `contains`, a
method) from the helper state to a `Result`. A put or remove returns the
helper state after its edit.

- `wrappers.dfy` (module `Wrappers`): `Option` stands for Kotlin's nullable
  types. `Result` stands for a call that returns a value or raises.
- `preferences.dfy` (module `Preferences`): the snapshot.
  - `Key(name, kind)` is a typed preference key, like `intPreferencesKey(name)`.
  - `Value` is a value tagged with its kind. `Int32` and `Int64` are the
    Kotlin integer ranges. `Float32` is a float kept as an opaque 32-bit
    pattern.
  - A `Snapshot` is a map from keys to values in which every value has its
    key's kind.
  - `Read`, `Write` and `Delete` are the three store primitives the helper
    uses: indexed read, and indexed write and removal inside an edit.
- `datastore_helper.dfy` (module `DataStoreHelper`): the handle lifecycle,
  the `*Internal` snapshot readers and the public blocking accessors.
- `session.dfy` (module `Session`): single-call round trips, plus sessions
  (sequences of blocking puts) with the properties `getAll` and the typed
  reads have after them.

Things to know about the model:

- Calling an accessor before `initialize` raises in the source, because the
  `lateinit` handle is unset. Here every accessor returns
  `Failure(Uninitialized)` in that case.
- A Kotlin `String?` is an `Option<string>`. Writing null stores `""`
  (`Sentinel`). Reading a stored `""` gives null (`Nullable`). On an absent
  key, a default of `""` also reads as null.
- `getFloatInternal` has no presence test. It relies on the nullable
  indexed read plus `?:`, which gives the same result as the presence test
  the int, long and boolean readers use. `GetFloatInternal` models the bare
  read.
- `getStringInternal` returns a small map tagged `"prefValue"` or
  `"default"`. It is modelled as `Some(stored)` or `None`.
- `getBooleanInternal` returns a two-element array (present, value). It is
  modelled as a pair. An absent key gives `(false, false)`, as in the source.
- Entries are keyed by name and kind. A put replaces only the entry of its
  own typed key. `removeSync` deletes only the string-typed entry of the
  name. `contains` matches any entry whose name is equal, whatever its kind.

## Model

| member | source | states |
|---|---|---|
| Preferences.Write | src/main/java/com/gpsamy/easydatastore/DataStoreHelper.kt:41-43 | after `setting[key] = v` inside an edit, the snapshot holds exactly its old keys plus `key`, `key` maps to `v`, and every other entry is unchanged |
| Preferences.Delete | src/main/java/com/gpsamy/easydatastore/DataStoreHelper.kt:274-276 | after `setting.remove(key)`, the snapshot holds its old keys minus `key`, and every remaining entry is unchanged |
| Preferences.Read | src/main/java/com/gpsamy/easydatastore/DataStoreHelper.kt:348-352 | the indexed read yields a value exactly when the key is present; that value is the stored one and, in the model's well-kinded snapshot, has the key's kind |
| Preferences.HasNameIffSomeKind | src/main/java/com/gpsamy/easydatastore/DataStoreHelper.kt:445-454 | a name is present by the name-only test exactly when the typed key of that name is present for some kind (both directions) |
| DataStoreHelper.Initialize | src/main/java/com/gpsamy/easydatastore/DataStoreHelper.kt:27-31 | after `initialize` a handle is always set; if one was already set the state is unchanged, otherwise the new store becomes the handle |
| DataStoreHelper.InitializeAll | src/main/java/com/gpsamy/easydatastore/DataStoreHelper.kt:27-31 | over any run of `initialize` calls, the first call on an unset helper decides the handle and every later call leaves it unchanged |
| DataStoreHelper.Edit | src/main/java/com/gpsamy/easydatastore/DataStoreHelper.kt:41-43 | an edit fails exactly when no handle is set; otherwise the same store is kept, the edited key now holds the new value, and every other entry is unchanged |
| DataStoreHelper.PutIntSync | src/main/java/com/gpsamy/easydatastore/DataStoreHelper.kt:39-44 | fails only before `initialize`; afterwards the key set is the old one plus the int key of that name, that key reads as the value, the store identity is kept, and every other entry is unchanged |
| DataStoreHelper.PutLongSync | src/main/java/com/gpsamy/easydatastore/DataStoreHelper.kt:375-380 | fails only before `initialize`; afterwards the key set is the old one plus the long key of that name, that key reads as the value, and every other entry is unchanged |
| DataStoreHelper.PutFloatSync | src/main/java/com/gpsamy/easydatastore/DataStoreHelper.kt:309-314 | fails only before `initialize`; afterwards the key set is the old one plus the float key of that name, that key holds the same bit pattern, and every other entry is unchanged |
| DataStoreHelper.PutBooleanSync | src/main/java/com/gpsamy/easydatastore/DataStoreHelper.kt:109-114 | fails only before `initialize`; afterwards the key set is the old one plus the boolean key of that name, that key reads as the value, and every other entry is unchanged |
| DataStoreHelper.Sentinel | src/main/java/com/gpsamy/easydatastore/DataStoreHelper.kt:192 | a null string is encoded as `""`; a non-null string is encoded as itself |
| DataStoreHelper.Nullable | src/main/java/com/gpsamy/easydatastore/DataStoreHelper.kt:253-257 | a stored string decodes to null exactly when it is `""`, and otherwise to itself |
| DataStoreHelper.PutStringSync | src/main/java/com/gpsamy/easydatastore/DataStoreHelper.kt:189-194 | fails only before `initialize`; the key set is the old one plus the string key of that name; a null value is stored as `""` and a non-null one as itself; every other entry is unchanged |
| DataStoreHelper.RemoveSync | src/main/java/com/gpsamy/easydatastore/DataStoreHelper.kt:272-277 | fails only before `initialize`; afterwards the string key of that name is absent, the key set is the old one minus that key, and every remaining entry is unchanged |
| DataStoreHelper.GetIntInternal | src/main/java/com/gpsamy/easydatastore/DataStoreHelper.kt:52-60 | yields a value exactly when the int key is present, and then it is the stored int |
| DataStoreHelper.GetLongInternal | src/main/java/com/gpsamy/easydatastore/DataStoreHelper.kt:401-409 | yields a value exactly when the long key is present, and then it is the stored long |
| DataStoreHelper.GetFloatInternal | src/main/java/com/gpsamy/easydatastore/DataStoreHelper.kt:348-352 | yields a value exactly when the float key is present, and then it is the stored bit pattern |
| DataStoreHelper.GetBooleanInternal | src/main/java/com/gpsamy/easydatastore/DataStoreHelper.kt:148-161 | the presence flag is true exactly when the boolean key is present; the value is then the stored one, and false when absent |
| DataStoreHelper.GetStringInternal | src/main/java/com/gpsamy/easydatastore/DataStoreHelper.kt:227-238 | tagged as a stored value exactly when the string key is present, carrying the stored string unchanged, including `""` |
| DataStoreHelper.GetInt | src/main/java/com/gpsamy/easydatastore/DataStoreHelper.kt:95-101 | fails only before `initialize`; a present int key reads as its stored value, and the default is returned on absence |
| DataStoreHelper.GetLong | src/main/java/com/gpsamy/easydatastore/DataStoreHelper.kt:431-437 | fails only before `initialize`; a present long key reads as its stored value, and the default is returned on absence |
| DataStoreHelper.GetFloat | src/main/java/com/gpsamy/easydatastore/DataStoreHelper.kt:361-367 | fails only before `initialize`; a present float key reads as its stored bit pattern, and the default is returned on absence |
| DataStoreHelper.GetBoolean | src/main/java/com/gpsamy/easydatastore/DataStoreHelper.kt:170-181 | fails only before `initialize`; a present boolean key reads as its stored value, and the default is returned on absence |
| DataStoreHelper.GetString | src/main/java/com/gpsamy/easydatastore/DataStoreHelper.kt:247-265 | fails only before `initialize`; never returns `""`; a present key reads as null exactly when it stores `""` and otherwise as the stored string; an absent key reads as the default, except that a default of `""` becomes null |
| DataStoreHelper.ContainsInt | src/main/java/com/gpsamy/easydatastore/DataStoreHelper.kt:504-521 | fails only before `initialize`; true exactly when the int key of that name is present |
| DataStoreHelper.ContainsLong | src/main/java/com/gpsamy/easydatastore/DataStoreHelper.kt:529-546 | fails only before `initialize`; true exactly when the long key of that name is present |
| DataStoreHelper.ContainsFloat | src/main/java/com/gpsamy/easydatastore/DataStoreHelper.kt:554-571 | fails only before `initialize`; true exactly when the float key of that name is present |
| DataStoreHelper.ContainsBoolean | src/main/java/com/gpsamy/easydatastore/DataStoreHelper.kt:579-596 | fails only before `initialize`; true exactly when the boolean key of that name is present |
| DataStoreHelper.ContainsString | src/main/java/com/gpsamy/easydatastore/DataStoreHelper.kt:479-496 | fails only before `initialize`; true exactly when the string key of that name is present |
| DataStoreHelper.ContainsInternal | src/main/java/com/gpsamy/easydatastore/DataStoreHelper.kt:445-454 | scanning the entries one at a time and stopping at the first name match gives true exactly when some entry, of any kind, has that name |
| DataStoreHelper.Contains | src/main/java/com/gpsamy/easydatastore/DataStoreHelper.kt:464-471 | fails only before `initialize`; otherwise true exactly when some entry of the snapshot has that name, whatever its kind |
| DataStoreHelper.GetAll | src/main/java/com/gpsamy/easydatastore/DataStoreHelper.kt:625-642 | fails only before `initialize`; otherwise it is the current snapshot, every key with its value, unchanged |
| Session.IntRoundTrip | src/test/java/com/gpsamy/easydatastore/DataStoreHelperTest.kt:91-98 | `putIntSync(k, v)` then `getInt(k, d)` returns `v` for every default `d`, and `containsInt(k)` is true |
| Session.LongRoundTrip | src/test/java/com/gpsamy/easydatastore/DataStoreHelperTest.kt:100-107 | `putLongSync(k, v)` then `getLong(k, d)` returns `v` for every `d`, and `containsLong(k)` is true |
| Session.FloatRoundTrip | src/test/java/com/gpsamy/easydatastore/DataStoreHelperTest.kt:109-116 | `putFloatSync(k, v)` then `getFloat(k, d)` returns the same bit pattern for every `d`, and `containsFloat(k)` is true |
| Session.BooleanRoundTrip | src/test/java/com/gpsamy/easydatastore/DataStoreHelperTest.kt:266-272 | `putBooleanSync(k, v)` then `getBoolean(k, d)` returns `v` for every `d`, and `containsBoolean(k)` is true |
| Session.SentinelRoundTrip | src/main/java/com/gpsamy/easydatastore/DataStoreHelper.kt:189-265 | decoding the encoding of a nullable string gives it back unless it is `""`, which comes back as null; encoding the decoding of a stored string gives the stored string back |
| Session.StringRoundTrip | src/test/java/com/gpsamy/easydatastore/DataStoreHelperTest.kt:118-125 | after `putStringSync(k, v)`, `getString(k, d)` is null when `v` is null or `""` whatever `d` is, and is `v` otherwise; `containsString(k)` is true |
| Session.RemoveThenAbsent | src/main/java/com/gpsamy/easydatastore/DataStoreHelper.kt:272-289 | after `removeSync(k)`, `containsString(k)` is false and `getString(k, d)` falls back to the default, with `""` read as null |
| Session.UninitializedFails | src/main/java/com/gpsamy/easydatastore/DataStoreHelper.kt:16-31 | before any `initialize`, puts, gets, presence tests, removal and `getAll` all raise |
| Session.PutSync | src/test/java/com/gpsamy/easydatastore/DataStoreHelperTest.kt:292-295 | a put of any kind fails only before `initialize`; it writes the typed key of its name and kind, and leaves every other entry unchanged |
| Session.PutAllSync | src/test/java/com/gpsamy/easydatastore/DataStoreHelperTest.kt:292-295 | a sequence of blocking puts succeeds exactly when a handle is set or the sequence is empty, and keeps the same store |
| Session.SessionKeys | src/test/java/com/gpsamy/easydatastore/DataStoreHelperTest.kt:283-303 | after a session, the keys are exactly the keys held before plus the keys the session wrote |
| Session.SessionReads | src/main/java/com/gpsamy/easydatastore/DataStoreHelper.kt:39-44 | after a session, each key reads as the last value written to it, or as it read before when it was never written |
| Session.DistinctWritesCount | src/test/java/com/gpsamy/easydatastore/DataStoreHelperTest.kt:292-298 | N puts to pairwise distinct typed keys write exactly N keys |
| Session.GetAllAfterSession | src/test/java/com/gpsamy/easydatastore/DataStoreHelperTest.kt:283-303 | on an empty store, `getAll` after N puts to distinct typed keys returns exactly those N keys, each with the value written |
| Session.NeverWrittenReadsDefault | src/test/java/com/gpsamy/easydatastore/DataStoreHelperTest.kt:60-88 | on a store holding no entry of that name, a name no put of the session used reads as the supplied default under every kind (a `""` string default as null) and is absent under every typed and name-only presence test |

## Left out

- The asynchronous variants (`putInt`, `putLong`, `putFloat`, `putBoolean`, `putString`, `remove`). They launch a coroutine on a shared I/O scope and return at once. When the write lands is unordered by design, so no state-transition claim about them is modelled.
- The coroutine exception handler and `SupervisorJob`. They only log failures of asynchronous calls.
- `toStringDataStore`. Its text is the library's `Preferences.toString` format, which is not part of this model.
- `DataStoreFactory`. It only configures the library: the Android `Context`, the file path derived from the store name, and the SharedPreferences migration. All of that is library I/O.
- `runBlocking`, suspension, durability, transactional `edit` and the on-disk format. They belong to the DataStore library. Each blocking call is modelled as one atomic read or edit of the snapshot.
- I/O and serialization errors raised by the store on a blocking call. The model's only error is calling an accessor before `initialize`.
- Two typed keys with the same name and different kinds. Whether they collide depends on the library's `Preferences.Key` equality, which is not part of this model. The model keys entries by name and kind, so such keys never interact. These contracts rely on that choice:
  - the frames of `Preferences.Write`, `DataStoreHelper.Edit`, the five `put*Sync` functions and `Session.PutSync`, which keep every entry under another typed key, including the same name under another kind;
  - `DataStoreHelper.RemoveSync`, which keeps the entries of the name under the other four kinds;
  - `Session.DistinctKeys`, `Session.DistinctWritesCount` and `Session.GetAllAfterSession`, which count two puts of one name under two kinds as two keys;
  - `Session.SessionKeys` and `Session.SessionReads`, which treat puts of one name under two kinds as writes to two separate entries;
  - the `Snapshot` type (every value has its key's kind) and so `Preferences.Read`, whose value always has the key's kind. In the source, whether the typed read and the `as String` cast can meet a value of another kind depends on the library;
  - the "fails only before `initialize`" clauses of `DataStoreHelper.GetInt`, `GetLong`, `GetFloat`, `GetBoolean` and `GetString`. A cast failure on a same-name value of another kind is not modelled.
- Floats as numbers. A float is an opaque bit pattern: nothing is computed with it and there are no numeric claims, NaN equality included.
- `initialize(null)`. The test expects an exception from Kotlin's null checks, not from the helper's logic. A `Store` value here can never be null.
- `contains` never writing to the store. A pure function or a method with no store output cannot write. No separate contract states this.
- Mutating the map returned by `getAll`. The source warns against it. The model returns an immutable map.
