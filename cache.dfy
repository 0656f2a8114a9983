/**
 * The session cache of awe-cache.js: string values with an expiry time,
 * kept under keys namespaced by an optional user identity, over a
 * string-keyed storage.
 *
 * The storage is a map from key to what JSON.parse makes of the stored
 * text; stringify/parse round-trip a cache record unchanged, and the
 * encrypt/decrypt hooks are the identity, as in the source.  Time `now` is
 * Date.now() in milliseconds.  A JavaScript exception is an `ok == false`
 * result, with the state as it was when the exception was thrown.
 */
module SessionCache {
  import opened Wrappers

  const Prefix: string := "__awec_"
  /** One hour, in milliseconds. */
  const DefaultTtl: real := 3600000.0

  /** What JSON.parse returns for a stored item. */
  datatype Stored =
    | Record(t: string, e: real, ts: real, v: string)   // a cache object
    | NonRecord                                         // valid JSON, but no cache object
    | Unparsable                                        // JSON.parse throws on it

  /** A value handed to cacheSet: a string, or anything else. */
  datatype JsValue = Str(s: string) | NonString

  /** getKey: the storage key of `key` under the current identity prefix. */
  function KeyFor(identityName: string, key: string): string
  {
    Prefix + identityName + key
  }

  /** Within one identity, distinct cache keys have distinct storage keys. */
  lemma KeyForInjective(identityName: string, k1: string, k2: string)
    ensures KeyFor(identityName, k1) == KeyFor(identityName, k2) ==> k1 == k2
  {
    var p := Prefix + identityName;
    if KeyFor(identityName, k1) == KeyFor(identityName, k2) {
      assert k1 == KeyFor(identityName, k1)[|p|..];
      assert k2 == KeyFor(identityName, k2)[|p|..];
    }
  }

  predicate StartsWith(s: string, p: string)
  {
    |p| <= |s| && s[..|p|] == p
  }

  /** The storage keys clearing an identity removes are exactly that identity's cache keys. */
  lemma IdentityKeysArePrefixed(identityName: string, storageKey: string)
    ensures StartsWith(storageKey, KeyFor(identityName, ""))
            <==> exists k :: storageKey == KeyFor(identityName, k)
  {
    var p := KeyFor(identityName, "");
    assert p == Prefix + identityName;
    if StartsWith(storageKey, p) {
      var k := storageKey[|p|..];
      assert storageKey == KeyFor(identityName, k);
    }
    if exists k :: storageKey == KeyFor(identityName, k) {
      var k :| storageKey == KeyFor(identityName, k);
      assert storageKey[..|p|] == p;
    }
  }

  /**
   * Namespaces are not separated: the key "a_x" stored with no identity
   * lives under the same storage key as "x" stored under identity "a", so
   * clearing identity "a" removes it too.
   */
  lemma NamespacesOverlap()
    ensures KeyFor("", "a_x") == KeyFor("a" + "_", "x")
    ensures StartsWith(KeyFor("", "a_x"), KeyFor("a" + "_", ""))
  {
    assert KeyFor("", "a_x") == "__awec_a_x";
    assert KeyFor("a" + "_", "") == "__awec_a_";
  }

  /** `if (!ttl) ttl = defaultTtl`: a missing or zero ttl means one hour. */
  function EffectiveTtl(ttl: Option<real>): (r: real)
    ensures ttl.Some? && ttl.value != 0.0 ==> r == ttl.value
    ensures ttl.None? || ttl.value == 0.0 ==> r == DefaultTtl
  {
    if ttl.Some? && ttl.value != 0.0 then ttl.value else DefaultTtl
  }

  /** createCO: None when the value is not a string (createCO throws). */
  function CreateCO(value: JsValue, ttl: real, timeStamp: Option<real>, now: real): (r: Option<Stored>)
    ensures r.None? <==> value.NonString?
    ensures r.Some? ==> r.value.Record? && r.value.t == "string" && r.value.v == value.s
    ensures r.Some? ==> r.value.e - now == ttl
    ensures r.Some? ==> r.value.ts == (if timeStamp.Some? then timeStamp.value else 0.0)
  {
    match value
    case NonString => None
    case Str(s) => Some(Record("string", now + ttl, if timeStamp.Some? then timeStamp.value else 0.0, s))
  }

  /** `cv && cv.t == "string" && cv.e > Date.now()`: a record that is still live. */
  predicate Live(s: Stored, now: real)
  {
    s.Record? && s.t == "string" && s.e > now
  }

  /** The result of cacheGet on `store`: the value when live, otherwise None and the key evicted. */
  function GetSpec(store: map<string, Stored>, identityName: string, key: string, now: real)
    : (Option<string>, map<string, Stored>)
  {
    var k := KeyFor(identityName, key);
    if k in store && Live(store[k], now) then (Some(store[k].v), store)
    else (None, store - {k})
  }

  /** The storage after cacheSet wrote a string value. */
  function SetSpec(store: map<string, Stored>, identityName: string, key: string, value: string,
                   ttl: Option<real>, timeStamp: Option<real>, now: real): map<string, Stored>
  {
    store[KeyFor(identityName, key) := CreateCO(Str(value), EffectiveTtl(ttl), timeStamp, now).value]
  }

  /**
   * Round trip: a value set under the same identity is read back until its
   * ttl has run out, and after that reads as missing and is evicted.
   */
  lemma SetThenGet(store: map<string, Stored>, identityName: string, key: string, value: string,
                   ttl: Option<real>, timeStamp: Option<real>, now: real, later: real)
    ensures var s := SetSpec(store, identityName, key, value, ttl, timeStamp, now);
            later < now + EffectiveTtl(ttl) ==> GetSpec(s, identityName, key, later) == (Some(value), s)
    ensures var s := SetSpec(store, identityName, key, value, ttl, timeStamp, now);
            later >= now + EffectiveTtl(ttl) ==>
              GetSpec(s, identityName, key, later) == (None, s - {KeyFor(identityName, key)})
  {
  }

  /** A set under one key leaves every other key's read unchanged. */
  lemma SetKeepsOtherKeys(store: map<string, Stored>, identityName: string, key: string, other: string,
                          value: string, ttl: Option<real>, timeStamp: Option<real>, now: real, later: real)
    requires key != other
    ensures GetSpec(SetSpec(store, identityName, key, value, ttl, timeStamp, now), identityName, other, later).0
            == GetSpec(store, identityName, other, later).0
  {
    KeyForInjective(identityName, key, other);
  }

  /** What cacheClearIdentity leaves: every key outside the prefix, and nothing under it. */
  function Unprefixed(store: map<string, Stored>, prefix: string): (r: map<string, Stored>)
    ensures forall k :: k in r <==> k in store && !StartsWith(k, prefix)
    ensures forall k :: k in r ==> r[k] == store[k]
  {
    map k | k in store && !StartsWith(k, prefix) :: store[k]
  }

  class Cache {
    /** The storage, with what JSON.parse makes of each item. */
    var store: map<string, Stored>
    /** `identity_name`: "" or the identity's name followed by "_". */
    var identityName: string
    var identityKey: Option<string>
    /** No sessionStorage, or "disable-awe-cache" in the page's query string. */
    const disabled: bool

    ghost predicate Valid()
      reads this
    {
      && (identityName == "" <==> identityKey.None?)
      && (identityName != "" ==> |identityName| >= 2 && identityName[|identityName| - 1] == '_')
    }

    constructor (store: map<string, Stored>, disabled: bool)
      ensures Valid()
      ensures this.store == store && this.disabled == disabled
      ensures identityName == "" && identityKey.None?
    {
      this.store := store;
      this.disabled := disabled;
      identityName := "";
      identityKey := None;
    }

    /** cacheSetIdentity: both name and key must be non-empty strings. */
    method SetIdentity(name: Option<string>, key: Option<string>) returns (ok: bool)
      requires Valid()
      modifies this`identityName, this`identityKey
      ensures Valid()
      ensures ok <==> name.Some? && name.value != "" && key.Some? && key.value != ""
      ensures ok ==> identityName == name.value + "_" && identityKey == key
      ensures !ok ==> unchanged(this`identityName, this`identityKey)
    {
      if name.None? || name.value == "" || key.None? || key.value == "" {
        return false;
      }
      identityName := name.value + "_";
      identityKey := key;
      ok := true;
    }

    /**
     * cacheClearIdentity: with an identity set, list the storage keys that
     * start with its prefix (in the order `enumeration` gives, as
     * store.key(i) does), remove them, and forget the identity.
     */
    method ClearIdentity(enumeration: seq<string>)
      requires Valid()
      requires forall k :: k in enumeration <==> k in store
      modifies this`store, this`identityName, this`identityKey
      ensures Valid()
      ensures old(identityName) == "" ==> unchanged(this`store, this`identityName, this`identityKey)
      ensures old(identityName) != "" ==>
                && store == Unprefixed(old(store), KeyFor(old(identityName), ""))
                && identityName == "" && identityKey.None?
    {
      if identityName == "" {
        return;
      }
      var kpfx := KeyFor(identityName, "");
      var keysToClear: seq<string> := [];
      var i := 0;
      while i < |enumeration|
        invariant 0 <= i <= |enumeration|
        invariant forall k :: k in keysToClear <==> k in enumeration[..i] && StartsWith(k, kpfx)
      {
        var ck := enumeration[i];
        if StartsWith(ck, kpfx) {
          keysToClear := keysToClear + [ck];
        }
        assert enumeration[..i + 1] == enumeration[..i] + [ck];
        i := i + 1;
      }
      assert enumeration[..|enumeration|] == enumeration;
      i := 0;
      while i < |keysToClear|
        invariant 0 <= i <= |keysToClear|
        invariant forall k :: k in store <==> k in old(store) && k !in keysToClear[..i]
        invariant forall k :: k in store ==> store[k] == old(store)[k]
      {
        store := store - {keysToClear[i]};
        assert keysToClear[..i + 1] == keysToClear[..i] + [keysToClear[i]];
        i := i + 1;
      }
      assert keysToClear[..|keysToClear|] == keysToClear;
      assert store == Unprefixed(old(store), kpfx);
      identityName := "";
      identityKey := None;
    }

    /**
     * cacheGet: None while disabled; the value of a live record; otherwise
     * None, with the key evicted.  An item JSON.parse rejects throws.
     */
    method Get(key: string, now: real) returns (ok: bool, r: Option<string>)
      modifies this`store
      ensures disabled ==> ok && r.None? && store == old(store)
      ensures !disabled ==>
                var k := KeyFor(identityName, key);
                && (ok <==> !(k in old(store) && old(store)[k].Unparsable?))
                && (ok ==> (r, store) == GetSpec(old(store), identityName, key, now))
                && (!ok ==> store == old(store))
    {
      if disabled {
        return true, None;
      }
      var k := KeyFor(identityName, key);
      if k in store && store[k].Unparsable? {
        return false, None;
      }
      if k in store && Live(store[k], now) {
        r := Some(store[k].v);
      } else {
        store := store - {k};
        r := None;
      }
      ok := true;
    }

    /** cacheGetTimeStamp: as cacheGet, returning the record's time stamp. */
    method GetTimeStamp(key: string, now: real) returns (ok: bool, r: Option<real>)
      modifies this`store
      ensures disabled ==> ok && r.None? && store == old(store)
      ensures !disabled ==>
                var k := KeyFor(identityName, key);
                && (ok <==> !(k in old(store) && old(store)[k].Unparsable?))
                && (ok ==> store == GetSpec(old(store), identityName, key, now).1)
                && (ok ==> (r.Some? <==> k in old(store) && Live(old(store)[k], now)))
                && (ok && r.Some? ==> r.value == old(store)[k].ts)
                && (!ok ==> store == old(store))
    {
      if disabled {
        return true, None;
      }
      var k := KeyFor(identityName, key);
      if k in store && store[k].Unparsable? {
        return false, None;
      }
      if k in store && Live(store[k], now) {
        r := Some(store[k].ts);
      } else {
        store := store - {k};
        r := None;
      }
      ok := true;
    }

    /**
     * cacheSet: writes a record for a string value, with the default ttl
     * when none (or zero) is given, and returns the value; a non-string
     * value throws before anything is written.
     */
    method Set(key: string, value: JsValue, ttl: Option<real>, timeStamp: Option<real>, now: real)
      returns (ok: bool, r: Option<string>)
      modifies this`store
      ensures disabled ==> ok && r.None? && store == old(store)
      ensures !disabled ==> (ok <==> value.Str?)
      ensures !disabled && ok ==> r == Some(value.s)
                                  && store == SetSpec(old(store), identityName, key, value.s, ttl, timeStamp, now)
      ensures !ok ==> store == old(store)
    {
      if disabled {
        return true, None;
      }
      var co := CreateCO(value, EffectiveTtl(ttl), timeStamp, now);
      if co.None? {
        return false, None;
      }
      store := store[KeyFor(identityName, key) := co.value];
      ok, r := true, Some(value.s);
    }

    /** cacheInvalidate: removes this key's item and no other. */
    method Invalidate(key: string)
      modifies this`store
      ensures disabled ==> store == old(store)
      ensures !disabled ==> store == old(store) - {KeyFor(identityName, key)}
    {
      if !disabled {
        store := store - {KeyFor(identityName, key)};
      }
    }
  }
}
