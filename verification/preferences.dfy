/** The preference snapshot the helper reads and edits: typed keys, tagged
    values, and the three primitive operations the helper asks of the store
    (indexed read, indexed write inside an edit, removal inside an edit). */
module Preferences {
  import opened Wrappers

  /** Kotlin `Int`: a 32-bit signed integer. Values are only stored and
      returned, never computed with, so no wrap-around arises. */
  type Int32 = x: int | -0x8000_0000 <= x < 0x8000_0000

  /** Kotlin `Long`: a 64-bit signed integer. */
  type Int64 = x: int | -0x8000_0000_0000_0000 <= x < 0x8000_0000_0000_0000

  /** Kotlin `Float`, kept as its 32-bit pattern: an opaque token that is
      stored and handed back, never compared numerically. */
  datatype Float32 = Float32(bits: bv32)

  /** The five value kinds a preference key can be declared with. */
  datatype Kind = IntKind | LongKind | FloatKind | BooleanKind | StringKind

  /** A stored preference value, tagged with its kind. */
  datatype Value =
    | IntValue(i: Int32)
    | LongValue(l: Int64)
    | FloatValue(f: Float32)
    | BooleanValue(b: bool)
    | StringValue(s: string)
  {
    function KindOf(): Kind {
      match this
      case IntValue(_) => IntKind
      case LongValue(_) => LongKind
      case FloatValue(_) => FloatKind
      case BooleanValue(_) => BooleanKind
      case StringValue(_) => StringKind
    }
  }

  /** A typed preference key: a name together with the kind it was declared
      with (`intPreferencesKey(name)`, `stringPreferencesKey(name)`, ...). */
  datatype Key = Key(name: string, kind: Kind)

  function IntKey(name: string): Key { Key(name, IntKind) }
  function LongKey(name: string): Key { Key(name, LongKind) }
  function FloatKey(name: string): Key { Key(name, FloatKind) }
  function BooleanKey(name: string): Key { Key(name, BooleanKind) }
  function StringKey(name: string): Key { Key(name, StringKind) }

  /** Every entry holds a value of the kind its key was declared with: a
      typed key can only be written with a value of its own type. */
  predicate WellKinded(m: map<Key, Value>) {
    forall k | k in m :: m[k].KindOf() == k.kind
  }

  /** An immutable point-in-time view of all entries of the store. */
  type Snapshot = m: map<Key, Value> | WellKinded(m) witness map[]

  /** True when some entry of `p`, of any kind, is named `name`. */
  predicate HasName(p: Snapshot, name: string) {
    exists k | k in p :: k.name == name
  }

  /** Indexed read `preferences[key]`: the stored value, or nothing. */
  function Read(p: Snapshot, key: Key): (r: Option<Value>)
    ensures r.Some? <==> key in p
    ensures r.Some? ==> r.value == p[key] && r.value.KindOf() == key.kind
  {
    if key in p then Some(p[key]) else None
  }

  /** Indexed write `setting[key] = value` inside an edit: the entry for
      `key` now holds `v` and every other entry is kept. */
  function Write(p: Snapshot, key: Key, v: Value): (r: Snapshot)
    requires v.KindOf() == key.kind
    ensures r.Keys == p.Keys + {key}
    ensures r[key] == v
    ensures forall k | k in p && k != key :: r[k] == p[k]
  {
    p[key := v]
  }

  /** `setting.remove(key)` inside an edit: the entry for `key` is gone and
      every other entry is kept. */
  function Delete(p: Snapshot, key: Key): (r: Snapshot)
    ensures r.Keys == p.Keys - {key}
    ensures forall k | k in r :: r[k] == p[k]
  {
    p - {key}
  }

  /** The name-only presence test holds exactly when a typed presence test
      holds for some kind: `contains(name)` ignores kind. */
  lemma HasNameIffSomeKind(p: Snapshot, name: string)
    ensures HasName(p, name) <==> exists kind: Kind :: Key(name, kind) in p
  {
    if HasName(p, name) {
      var k :| k in p && k.name == name;
      assert Key(name, k.kind) == k;
    }
  }
}
