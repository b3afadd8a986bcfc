/**
 * The server's key/value storage (`storage_t`): one map from key to value and
 * one from key to expiry time, written together by `add`. Lookup never looks
 * at the expiry map, so nothing ever expires.
 */
module Storage {
  import opened Basics

  /** The pending attributes of a `set` header (`key_exp_t`); by default the key is empty and the expiry 0. */
  datatype KeyExp = KeyExp(key: string, expiryTime: i32)

  /** The contents of the two maps. Expiry times are in whole seconds since the epoch. */
  datatype Tables = Tables(keyValue: map<string, string>, keyExpiry: map<string, int>)

  /** Every key that has a value also has an expiry time, and the other way round. */
  predicate Aligned(t: Tables) {
    t.keyValue.Keys == t.keyExpiry.Keys
  }

  /** The value stored under `key`, if any. */
  function Find(t: Tables, key: string): (r: Option<string>)
    ensures r.Some? <==> key in t.keyValue
    ensures r.Some? ==> r.value == t.keyValue[key]
  {
    if key in t.keyValue then Some(t.keyValue[key]) else None
  }

  /** The tables after `add(ke, value)` at time `now`. */
  function Put(t: Tables, ke: KeyExp, value: string, now: int): (t': Tables)
    // the key now holds the value, whatever its expiry time
    ensures Find(t', ke.key) == Some(value)
    // and expires `expiryTime` seconds after `now` (in the past when negative)
    ensures ke.key in t'.keyExpiry && t'.keyExpiry[ke.key] == now + ke.expiryTime
    // no other key is touched
    ensures forall k :: k != ke.key ==> Find(t', k) == Find(t, k)
    ensures forall k :: k != ke.key ==> (k in t'.keyExpiry <==> k in t.keyExpiry)
    ensures forall k :: k != ke.key && k in t.keyExpiry ==> t'.keyExpiry[k] == t.keyExpiry[k]
    ensures Aligned(t) ==> Aligned(t')
  {
    Tables(t.keyValue[ke.key := value], t.keyExpiry[ke.key := now + ke.expiryTime])
  }

  /** A second `add` on the same key replaces both the value and the expiry time of the first. */
  lemma PutLastWriteWins(t: Tables, first: KeyExp, v1: string, now1: int, second: KeyExp, v2: string, now2: int)
    requires first.key == second.key
    ensures Put(Put(t, first, v1, now1), second, v2, now2) == Put(t, second, v2, now2)
  {
  }

  /** `add` on different keys commutes. */
  lemma PutCommutes(t: Tables, a: KeyExp, va: string, nowA: int, b: KeyExp, vb: string, nowB: int)
    requires a.key != b.key
    ensures Put(Put(t, a, va, nowA), b, vb, nowB) == Put(Put(t, b, vb, nowB), a, va, nowA)
  {
    assert t.keyValue[a.key := va][b.key := vb] == t.keyValue[b.key := vb][a.key := va];
    assert t.keyExpiry[a.key := nowA + a.expiryTime][b.key := nowB + b.expiryTime] ==
           t.keyExpiry[b.key := nowB + b.expiryTime][a.key := nowA + a.expiryTime];
  }

  /** `storage_t`: the two maps, updated in place. */
  class Store {
    var keyValue: map<string, string>
    var keyExpiry: map<string, int>

    /** Every key with a value has an expiry time and the other way round. */
    ghost predicate Valid()
      reads this
    {
      Aligned(Contents())
    }

    constructor ()
      ensures Valid()
      ensures keyValue == map[] && keyExpiry == map[]
    {
      keyValue := map[];
      keyExpiry := map[];
    }

    function Contents(): Tables
      reads this
    {
      Tables(keyValue, keyExpiry)
    }

    /** `storage_t::add`: overwrite the value and the expiry time of `ke.key`. */
    method Add(ke: KeyExp, value: string, now: int)
      requires Valid()
      modifies this
      ensures Valid()
      ensures Contents() == Put(old(Contents()), ke, value, now)
    {
      keyValue := keyValue[ke.key := value];
      keyExpiry := keyExpiry[ke.key := now + ke.expiryTime];
    }

    /** `storage_t::get`: a plain lookup that changes nothing and ignores expiry. */
    method Get(key: string) returns (r: Option<string>)
      ensures r == Find(Contents(), key)
    {
      if key in keyValue {
        r := Some(keyValue[key]);
      } else {
        r := None;
      }
    }
  }
}
