/** The TTL dictionary of the session store (app/auth/session_store.py). Times are real numbers of
    seconds; every operation is given the reading of the clock it makes. */
module SessionStore {
  import opened Text

  datatype Entry<+V> = Entry(value: V, deadline: Option<real>)

  type Timed<K, V> = map<K, Entry<V>>

  predicate Alive<V>(e: Entry<V>, now: real) {
    e.deadline.None? || e.deadline.value >= now
  }

  /** The key has an entry whose deadline has not passed. */
  ghost predicate InStore<K, V>(d: Timed<K, V>, key: K, now: real) {
    key in d && (d[key].deadline.None? || d[key].deadline.value >= now)
  }

  /** What a reader is told about a key. */
  function Lookup<K, V>(d: Timed<K, V>, key: K, now: real): Option<V> {
    if key in d && Alive(d[key], now) then Some(d[key].value) else None
  }

  function Deadline(ttl: Option<nat>, now: real): Option<real> {
    match ttl case None => None case Some(n) => Some(now + n as real)
  }

  datatype Op<K, V> = Set(key: K, value: V, ttl: Option<nat>) | Get(key: K) | Pop(key: K) | Delete(key: K)

  /** `_TTLDict` as it is: an expired entry stays until a read of its key throws it out. */
  function Lazy<K, V>(d: Timed<K, V>, op: Op<K, V>, now: real): (Timed<K, V>, Option<V>) {
    match op
    case Set(k, v, ttl) => (d[k := Entry(v, Deadline(ttl, now))], None)
    case Get(k) => (if k in d && !Alive(d[k], now) then d - {k} else d, Lookup(d, k, now))
    case Pop(k) => (d - {k}, Lookup(d, k, now))
    case Delete(k) => (d - {k}, None)
  }

  /** What each operation does to the entries, and what it answers. */
  lemma LazyExactly<K, V>(d: Timed<K, V>, key: K, value: V, ttl: Option<nat>, now: real)
    ensures Lazy(d, Op.Set(key, value, ttl), now).0 ==
      d[key := Entry(value, if ttl.Some? then Some(now + ttl.value as real) else None)]
    ensures Lazy(d, Op.Get(key), now) ==
      if InStore(d, key, now) then (d, Some(d[key].value)) else (d - {key}, None)
    ensures Lazy(d, Op.Pop(key), now) == (d - {key}, if InStore(d, key, now) then Some(d[key].value) else None)
    ensures Lazy(d, Op<K, V>.Delete(key), now) == (d - {key}, None)
  {
    if key !in d {
      assert d - {key} == d;
    }
  }

  class TTLDict<K(==), V> {
    var data: Timed<K, V>

    constructor ()
      ensures data == map[]
    {
      data := map[];
    }

    method Set(key: K, value: V, ttl: Option<nat>, now: real)
      modifies this
      ensures data == Lazy(old(data), Op.Set(key, value, ttl), now).0
    {
      var expires := match ttl case None => None case Some(n) => Some(now + n as real);
      data := data[key := Entry(value, expires)];
    }

    method Get(key: K, now: real) returns (v: Option<V>)
      modifies this
      ensures (data, v) == Lazy(old(data), Op.Get(key), now)
    {
      if key !in data {
        assert data == data - {key};
        return None;
      }
      var entry := data[key];
      if entry.deadline.Some? && entry.deadline.value < now {
        data := data - {key};
        return None;
      }
      return Some(entry.value);
    }

    method Pop(key: K, now: real) returns (v: Option<V>)
      modifies this
      ensures (data, v) == Lazy(old(data), Op.Pop(key), now)
    {
      if key !in data {
        assert data == data - {key};
        return None;
      }
      var entry := data[key];
      data := data - {key};
      if entry.deadline.Some? && entry.deadline.value < now {
        return None;
      }
      return Some(entry.value);
    }

    method Delete(key: K)
      modifies this
      ensures data == old(data) - {key}
    {
      data := data - {key};
    }
  }

  // ---- refinement: lazy eviction is never seen ----

  /** The plain map with deadlines: reading never changes it. */
  function Plain<K, V>(d: Timed<K, V>, op: Op<K, V>, now: real): (Timed<K, V>, Option<V>) {
    match op
    case Set(k, v, ttl) => (d[k := Entry(v, Deadline(ttl, now))], None)
    case Get(k) => (d, Lookup(d, k, now))
    case Pop(k) => (d - {k}, Lookup(d, k, now))
    case Delete(k) => (d - {k}, None)
  }

  datatype Timestamped<K, V> = At(now: real, op: Op<K, V>)

  ghost predicate Chronological<K, V>(ops: seq<Timestamped<K, V>>, from: real) {
    ops != [] ==> from <= ops[0].now && Chronological(ops[1..], ops[0].now)
  }

  function LazyResults<K, V>(d: Timed<K, V>, ops: seq<Timestamped<K, V>>): seq<Option<V>>
    decreases |ops|
  {
    if ops == [] then []
    else var (d', r) := Lazy(d, ops[0].op, ops[0].now); [r] + LazyResults(d', ops[1..])
  }

  function PlainResults<K, V>(d: Timed<K, V>, ops: seq<Timestamped<K, V>>): seq<Option<V>>
    decreases |ops|
  {
    if ops == [] then []
    else var (d', r) := Plain(d, ops[0].op, ops[0].now); [r] + PlainResults(d', ops[1..])
  }

  /** The two dictionaries agree on everything a reader can see from `now` on. */
  ghost predicate Agree<K(!new), V(!new)>(a: Timed<K, V>, b: Timed<K, V>, now: real) {
    forall k, t :: t >= now ==> Lookup(a, k, t) == Lookup(b, k, t)
  }

  lemma AgreeStep<K(!new), V(!new)>(a: Timed<K, V>, b: Timed<K, V>, op: Op<K, V>, from: real, now: real)
    requires Agree(a, b, from) && from <= now
    ensures Lazy(a, op, now).1 == Plain(b, op, now).1
    ensures Agree(Lazy(a, op, now).0, Plain(b, op, now).0, now)
  {
    var a', b' := Lazy(a, op, now).0, Plain(b, op, now).0;
    forall k, t | t >= now ensures Lookup(a', k, t) == Lookup(b', k, t) {
      assert Lookup(a, k, t) == Lookup(b, k, t);
    }
  }

  /** Whatever is asked of the two, in whatever chronological order, the answers are the same. */
  lemma {:induction false} LazyRefinesPlain<K(!new), V(!new)>(
    a: Timed<K, V>, b: Timed<K, V>, ops: seq<Timestamped<K, V>>, from: real)
    requires Agree(a, b, from) && Chronological(ops, from)
    ensures LazyResults(a, ops) == PlainResults(b, ops)
    decreases |ops|
  {
    if ops != [] {
      AgreeStep(a, b, ops[0].op, from, ops[0].now);
      LazyRefinesPlain(Lazy(a, ops[0].op, ops[0].now).0, Plain(b, ops[0].op, ops[0].now).0, ops[1..], ops[0].now);
    }
  }
}
