/** Properties of the blocking accessors, stated over single calls and over
    sessions: sequences of blocking puts issued one after another. */
module Session {
  import opened Wrappers
  import opened Preferences
  import opened DataStoreHelper

  // ----- single-call round trips -----

  /** `putIntSync(k, v)` then `getInt(k, d)` gives `v` whatever `d` is, and
      `containsInt(k)` holds. */
  lemma IntRoundTrip(h: Helper, key: string, value: Int32, defaultValue: Int32)
    requires Initialized(h)
    ensures PutIntSync(h, key, value).Success?
    ensures GetInt(PutIntSync(h, key, value).value, key, defaultValue) == Success(value)
    ensures ContainsInt(PutIntSync(h, key, value).value, key) == Success(true)
  {
  }

  /** `putLongSync(k, v)` then `getLong(k, d)` gives `v`, and `containsLong(k)` holds. */
  lemma LongRoundTrip(h: Helper, key: string, value: Int64, defaultValue: Int64)
    requires Initialized(h)
    ensures PutLongSync(h, key, value).Success?
    ensures GetLong(PutLongSync(h, key, value).value, key, defaultValue) == Success(value)
    ensures ContainsLong(PutLongSync(h, key, value).value, key) == Success(true)
  {
  }

  /** `putFloatSync(k, v)` then `getFloat(k, d)` hands back the same bit
      pattern, and `containsFloat(k)` holds. */
  lemma FloatRoundTrip(h: Helper, key: string, value: Float32, defaultValue: Float32)
    requires Initialized(h)
    ensures PutFloatSync(h, key, value).Success?
    ensures GetFloat(PutFloatSync(h, key, value).value, key, defaultValue) == Success(value)
    ensures ContainsFloat(PutFloatSync(h, key, value).value, key) == Success(true)
  {
  }

  /** `putBooleanSync(k, v)` then `getBoolean(k, d)` gives `v`, and
      `containsBoolean(k)` holds. */
  lemma BooleanRoundTrip(h: Helper, key: string, value: bool, defaultValue: bool)
    requires Initialized(h)
    ensures PutBooleanSync(h, key, value).Success?
    ensures GetBoolean(PutBooleanSync(h, key, value).value, key, defaultValue) == Success(value)
    ensures ContainsBoolean(PutBooleanSync(h, key, value).value, key) == Success(true)
  {
  }

  /** Null and "" are one value through the string accessors: decoding an
      encoded nullable string gives it back unless it was "", and encoding a
      decoded stored string gives back the stored string. */
  lemma SentinelRoundTrip(value: Option<string>, stored: string)
    ensures value != Some("") ==> Nullable(Sentinel(value)) == value
    ensures Nullable(Sentinel(Some(""))) == None
    ensures Sentinel(Nullable(stored)) == stored
  {
  }

  /** `putStringSync(k, v)` then `getString(k, d)`: a null or "" reads back
      as null whatever the default, any other string reads back unchanged;
      `containsString(k)` holds either way. */
  lemma StringRoundTrip(h: Helper, key: string, value: Option<string>, defaultValue: Option<string>)
    requires Initialized(h)
    ensures PutStringSync(h, key, value).Success?
    ensures value.None? || value == Some("") ==>
      GetString(PutStringSync(h, key, value).value, key, defaultValue) == Success(None)
    ensures value.Some? && value.value != "" ==>
      GetString(PutStringSync(h, key, value).value, key, defaultValue) == Success(value)
    ensures ContainsString(PutStringSync(h, key, value).value, key) == Success(true)
  {
  }

  /** `removeSync(k)` then `containsString(k)` is false and `getString(k, d)`
      falls back to the default. */
  lemma RemoveThenAbsent(h: Helper, key: string, defaultValue: Option<string>)
    requires Initialized(h)
    ensures RemoveSync(h, key).Success?
    ensures ContainsString(RemoveSync(h, key).value, key) == Success(false)
    ensures GetString(RemoveSync(h, key).value, key, defaultValue)
         == Success(Nullable(Sentinel(defaultValue)))
  {
  }

  /** Every accessor raises when no handle has been set. */
  lemma UninitializedFails(key: string)
    ensures PutIntSync(Fresh, key, 0).Failure?
    ensures GetInt(Fresh, key, 0) == Failure(Uninitialized)
    ensures GetString(Fresh, key, None) == Failure(Uninitialized)
    ensures ContainsString(Fresh, key) == Failure(Uninitialized)
    ensures RemoveSync(Fresh, key) == Failure(Uninitialized)
    ensures GetAll(Fresh) == Failure(Uninitialized)
  {
  }

  // ----- sessions of blocking puts -----

  /** One blocking put: a name and the typed value written under it. */
  datatype Put = Put(name: string, value: Value)

  /** The typed key a put writes. */
  function KeyOf(w: Put): Key {
    Key(w.name, w.value.KindOf())
  }

  /** Issue `w` through the typed `put*Sync` of its kind. A string put of ""
      stands for both `putStringSync(k, "")` and `putStringSync(k, null)`. */
  function PutSync(h: Helper, w: Put): (r: Result<Helper, HelperError>)
    ensures r.Success? <==> Initialized(h)
    ensures r.Success? ==> SameStore(h, r.value)
    ensures r.Success? ==> Data(r.value).Keys == Data(h).Keys + {KeyOf(w)}
    ensures r.Success? ==> Data(r.value)[KeyOf(w)] == w.value
    ensures r.Success? ==> forall k | k in Data(h) && k != KeyOf(w) :: Data(r.value)[k] == Data(h)[k]
  {
    match w.value
    case IntValue(i) => PutIntSync(h, w.name, i)
    case LongValue(l) => PutLongSync(h, w.name, l)
    case FloatValue(f) => PutFloatSync(h, w.name, f)
    case BooleanValue(b) => PutBooleanSync(h, w.name, b)
    case StringValue(s) => PutStringSync(h, w.name, Some(s))
  }

  /** Issue the puts of `ws` in order, each after the previous has completed. */
  function PutAllSync(h: Helper, ws: seq<Put>): (r: Result<Helper, HelperError>)
    ensures r.Success? <==> Initialized(h) || |ws| == 0
    ensures r.Success? && Initialized(h) ==> SameStore(h, r.value)
    decreases |ws|
  {
    if |ws| == 0 then Success(h)
    else
      var h' :- PutAllSync(h, ws[..|ws| - 1]);
      PutSync(h', ws[|ws| - 1])
  }

  /** The key identities written by `ws`. */
  function WrittenKeys(ws: seq<Put>): set<Key>
    decreases |ws|
  {
    if |ws| == 0 then {} else WrittenKeys(ws[..|ws| - 1]) + {KeyOf(ws[|ws| - 1])}
  }

  /** The value of the last put in `ws` to `key`, if any. */
  function LastWrite(ws: seq<Put>, key: Key): Option<Value>
    decreases |ws|
  {
    if |ws| == 0 then None
    else if KeyOf(ws[|ws| - 1]) == key then Some(ws[|ws| - 1].value)
    else LastWrite(ws[..|ws| - 1], key)
  }

  /** After a session the store holds the keys it held before plus every key
      the session wrote, and nothing else. */
  lemma {:induction false} SessionKeys(h: Helper, ws: seq<Put>)
    requires Initialized(h)
    ensures PutAllSync(h, ws).Success?
    ensures Data(PutAllSync(h, ws).value).Keys == Data(h).Keys + WrittenKeys(ws)
    decreases |ws|
  {
    if |ws| > 0 {
      SessionKeys(h, ws[..|ws| - 1]);
    }
  }

  /** After a session each key reads as the last value the session wrote to
      it, or as before the session when the session never wrote it. */
  lemma {:induction false} SessionReads(h: Helper, ws: seq<Put>, key: Key)
    requires Initialized(h)
    ensures PutAllSync(h, ws).Success?
    ensures LastWrite(ws, key).Some? ==>
      Read(Data(PutAllSync(h, ws).value), key) == LastWrite(ws, key)
    ensures LastWrite(ws, key).None? ==>
      Read(Data(PutAllSync(h, ws).value), key) == Read(Data(h), key)
    decreases |ws|
  {
    if |ws| > 0 {
      SessionReads(h, ws[..|ws| - 1], key);
    }
  }

  /** No two puts of `ws` write the same key identity. */
  predicate DistinctKeys(ws: seq<Put>) {
    forall i, j | 0 <= i < j < |ws| :: KeyOf(ws[i]) != KeyOf(ws[j])
  }

  /** A put that writes `key` appears in `ws` exactly when `key` was written. */
  lemma {:induction false} WrittenKeysMembers(ws: seq<Put>, key: Key)
    ensures key in WrittenKeys(ws) <==> exists i | 0 <= i < |ws| :: KeyOf(ws[i]) == key
    decreases |ws|
  {
    if |ws| > 0 {
      var n := |ws| - 1;
      WrittenKeysMembers(ws[..n], key);
      if key in WrittenKeys(ws[..n]) {
        var i :| 0 <= i < n && KeyOf(ws[..n][i]) == key;
        assert KeyOf(ws[i]) == key;
      }
      if exists i | 0 <= i < |ws| :: KeyOf(ws[i]) == key {
        var i :| 0 <= i < |ws| && KeyOf(ws[i]) == key;
        if i < n {
          assert KeyOf(ws[..n][i]) == key;
        }
      }
    }
  }

  /** N puts to pairwise distinct key identities write exactly N keys. */
  lemma {:induction false} DistinctWritesCount(ws: seq<Put>)
    requires DistinctKeys(ws)
    ensures |WrittenKeys(ws)| == |ws|
    decreases |ws|
  {
    if |ws| > 0 {
      var n := |ws| - 1;
      assert DistinctKeys(ws[..n]) by {
        forall i, j | 0 <= i < j < n
          ensures KeyOf(ws[..n][i]) != KeyOf(ws[..n][j])
        {
          assert ws[..n][i] == ws[i] && ws[..n][j] == ws[j];
        }
      }
      DistinctWritesCount(ws[..n]);
      forall i | 0 <= i < n
        ensures KeyOf(ws[..n][i]) != KeyOf(ws[n])
      {
        assert ws[..n][i] == ws[i];
      }
      WrittenKeysMembers(ws[..n], KeyOf(ws[n]));
    }
  }

  /** `getAll()` after N blocking puts to distinct key identities on an empty
      store returns exactly those N keys, each with the value written. */
  lemma {:induction false} GetAllAfterSession(h: Helper, ws: seq<Put>)
    requires Initialized(h) && Data(h) == map[]
    requires DistinctKeys(ws)
    ensures PutAllSync(h, ws).Success?
    ensures GetAll(PutAllSync(h, ws).value).Success?
    ensures GetAll(PutAllSync(h, ws).value).value.Keys == WrittenKeys(ws)
    ensures |GetAll(PutAllSync(h, ws).value).value| == |ws|
    ensures forall i | 0 <= i < |ws| ::
      Read(GetAll(PutAllSync(h, ws).value).value, KeyOf(ws[i])) == Some(ws[i].value)
  {
    SessionKeys(h, ws);
    DistinctWritesCount(ws);
    var after := Data(PutAllSync(h, ws).value);
    assert |after| == |after.Keys|;
    forall i | 0 <= i < |ws|
      ensures Read(after, KeyOf(ws[i])) == Some(ws[i].value)
    {
      LastWriteOfDistinct(ws, i);
      SessionReads(h, ws, KeyOf(ws[i]));
    }
  }

  /** With distinct key identities, the last write to the key of `ws[i]` is `ws[i]`. */
  lemma {:induction false} LastWriteOfDistinct(ws: seq<Put>, i: int)
    requires DistinctKeys(ws)
    requires 0 <= i < |ws|
    ensures LastWrite(ws, KeyOf(ws[i])) == Some(ws[i].value)
    decreases |ws|
  {
    var n := |ws| - 1;
    if i < n {
      assert DistinctKeys(ws[..n]) by {
        forall a, b | 0 <= a < b < n
          ensures KeyOf(ws[..n][a]) != KeyOf(ws[..n][b])
        {
          assert ws[..n][a] == ws[a] && ws[..n][b] == ws[b];
        }
      }
      assert ws[..n][i] == ws[i];
      LastWriteOfDistinct(ws[..n], i);
    }
  }

  /** On a store holding no entry of that name, a name the session never
      wrote reads as the supplied default under every kind and is reported
      absent under every kind. */
  lemma {:induction false} NeverWrittenReadsDefault(h: Helper, ws: seq<Put>, key: string,
                                 di: Int32, dl: Int64, df: Float32, db: bool, ds: Option<string>)
    requires Initialized(h) && !HasName(Data(h), key)
    requires forall i | 0 <= i < |ws| :: ws[i].name != key
    ensures PutAllSync(h, ws).Success?
    ensures GetInt(PutAllSync(h, ws).value, key, di) == Success(di)
    ensures GetLong(PutAllSync(h, ws).value, key, dl) == Success(dl)
    ensures GetFloat(PutAllSync(h, ws).value, key, df) == Success(df)
    ensures GetBoolean(PutAllSync(h, ws).value, key, db) == Success(db)
    ensures ds != Some("") ==> GetString(PutAllSync(h, ws).value, key, ds) == Success(ds)
    ensures ds == Some("") ==> GetString(PutAllSync(h, ws).value, key, ds) == Success(None)
    ensures !HasName(Data(PutAllSync(h, ws).value), key)
    ensures ContainsInt(PutAllSync(h, ws).value, key) == Success(false)
    ensures ContainsLong(PutAllSync(h, ws).value, key) == Success(false)
    ensures ContainsFloat(PutAllSync(h, ws).value, key) == Success(false)
    ensures ContainsBoolean(PutAllSync(h, ws).value, key) == Success(false)
    ensures ContainsString(PutAllSync(h, ws).value, key) == Success(false)
  {
    SessionKeys(h, ws);
    var after := Data(PutAllSync(h, ws).value);
    forall k | k in after
      ensures k.name != key
    {
      WrittenKeysMembers(ws, k);
    }
  }
}
