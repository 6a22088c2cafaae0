/**
  The in-memory session store (src/session/default/mod.rs): a concurrent map
  from user id to `AuthKey`, modelled as a `map`. Every operation of this
  backend answers `Ok`.
*/
module SessionDefault {
  import opened Results
  import opened Errors
  import opened Externals

  /** The server-side secret of a session and the instant (epoch seconds) it expires. */
  datatype AuthKey = AuthKey(expires: int, secret: string)

  type Store = map<ObjectId, AuthKey>

  /** `Duration::as_secs() as i64`: a `u64` reinterpreted as a two's-complement `i64`. */
  function AsI64(secs: u64): (r: int)
    ensures -0x8000_0000_0000_0000 <= r < 0x8000_0000_0000_0000
    ensures (secs as int) < 0x8000_0000_0000_0000 <==> r == secs as int
    ensures r < 0 <==> (secs as int) >= 0x8000_0000_0000_0000
  {
    if (secs as int) < 0x8000_0000_0000_0000 then secs as int
    else secs as int - 0x1_0000_0000_0000_0000
  }

  /** `insert`: store `secret` for `id`; `expires` is what the conversion of a
      secret into an `AuthKey` assigns. */
  function Insert(s: Store, id: ObjectId, secret: string, expires: int): (r: Result<Store, Error>)
    ensures r.Ok?
    ensures Get(r.value, id) == Some(secret)
    ensures forall other :: other != id ==> Get(r.value, other) == Get(s, other)
    ensures forall o :: o != id && o in s ==> o in r.value && r.value[o] == s[o]
    ensures r.value.Keys == s.Keys + {id}
    ensures r.value[id] == AuthKey(expires, secret)
  {
    Ok(s[id := AuthKey(expires, secret)])
  }

  /** `insert_for` as written: the expiry stored is the raw duration, not an instant. */
  function InsertFor(s: Store, id: ObjectId, secret: string, time: u64): (r: Result<Store, Error>)
    ensures r.Ok?
    ensures Get(r.value, id) == Some(secret)
    ensures forall other :: other != id ==> Get(r.value, other) == Get(s, other)
    ensures forall o :: o != id && o in s ==> o in r.value && r.value[o] == s[o]
    ensures r.value.Keys == s.Keys + {id}
    ensures r.value[id] == AuthKey(AsI64(time), secret)
  {
    Ok(s[id := AuthKey(AsI64(time), secret)])
  }

  /** `insert_for` as evidently intended: the key expires `time` seconds after `now`. */
  function InsertForFixed(s: Store, id: ObjectId, secret: string, time: u64, now: int): (r: Result<Store, Error>)
    ensures r.Ok?
    ensures Get(r.value, id) == Some(secret)
    ensures forall other :: other != id ==> Get(r.value, other) == Get(s, other)
    ensures forall o :: o != id && o in s ==> o in r.value && r.value[o] == s[o]
    ensures r.value.Keys == s.Keys + {id}
    ensures r.value[id].secret == secret && r.value[id].expires - now == time as int
  {
    Ok(s[id := AuthKey(now + time as int, secret)])
  }

  /** `get`: the secret stored for `id`, if any. */
  function Get(s: Store, id: ObjectId): (r: Option<string>)
    ensures r.Some? <==> id in s
    ensures r.Some? ==> r.value == s[id].secret
  {
    if id in s then Some(s[id].secret) else None
  }

  /** `remove`: forget the key of `id`; removing an absent id is not an error. */
  function Remove(s: Store, id: ObjectId): (r: Result<Store, Error>)
    ensures r.Ok?
    ensures Get(r.value, id) == None
    ensures forall other :: other != id ==> Get(r.value, other) == Get(s, other)
    ensures id !in s ==> r.value == s
    ensures forall o :: o != id && o in s ==> o in r.value && r.value[o] == s[o]
    ensures r.value.Keys == s.Keys - {id}
  {
    Ok(s - {id})
  }

  /** `clear_all`. */
  function ClearAll(s: Store): (r: Result<Store, Error>)
    ensures r.Ok?
    ensures forall id :: Get(r.value, id) == None
  {
    Ok(map[])
  }

  /** `clear_expired`: keep the entries that expire strictly after `now`. */
  function ClearExpired(s: Store, now: int): (r: Result<Store, Error>)
    ensures r.Ok?
    ensures forall id :: id in r.value <==> id in s && s[id].expires > now
    ensures forall id :: id in r.value ==> r.value[id] == s[id]
  {
    Ok(map id | id in s && s[id].expires > now :: s[id])
  }

  /** Removing twice is the same as removing once, and neither fails. */
  lemma RemoveIdempotent(s: Store, id: ObjectId)
    ensures Remove(Remove(s, id).value, id) == Remove(s, id)
  {
  }

  /** Two inserts for one id leave only the second key: at most one key per user. */
  lemma InsertOverwrites(s: Store, id: ObjectId, k1: string, k2: string, e1: int, e2: int)
    ensures Insert(Insert(s, id, k1, e1).value, id, k2, e2) == Insert(s, id, k2, e2)
  {
    assert s[id := AuthKey(e1, k1)][id := AuthKey(e2, k2)] == s[id := AuthKey(e2, k2)];
  }

  /** Sweeping twice at the same instant removes nothing more. */
  lemma ClearExpiredIdempotent(s: Store, now: int)
    ensures ClearExpired(ClearExpired(s, now).value, now) == ClearExpired(s, now)
  {
    var once := ClearExpired(s, now).value;
    var twice := ClearExpired(once, now).value;
    assert twice.Keys == once.Keys;
    assert forall id :: id in twice ==> twice[id] == once[id];
    assert twice == once;
  }

  /** As written, a key stored by `insert_for` at any instant past its raw
      duration is swept by the next `clear_expired`: a one-hour session stored
      at a realistic clock reading is gone at once. */
  lemma InsertForSweptAtOnce(s: Store, id: ObjectId, secret: string, time: u64, now: int)
    requires now >= time as int
    ensures Get(ClearExpired(InsertFor(s, id, secret, time).value, now).value, id) == None
  {
  }

  /** With the corrected expiry, a key survives every sweep before its lifetime ends. */
  lemma InsertForFixedSurvives(s: Store, id: ObjectId, secret: string, time: u64, now: int, later: int)
    requires now <= later < now + time as int
    ensures Get(ClearExpired(InsertForFixed(s, id, secret, time, now).value, later).value, id) == Some(secret)
  {
  }
}
