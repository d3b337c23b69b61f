/** `ExpiringMap`: a string-keyed cache whose entries may carry an expiry
    time. Adding never overwrites; reading an expired entry answers nothing
    and deletes it. The clock is a parameter: `now` is the time of the call,
    in nanoseconds. */
module ExpiringMap {
  import opened Wrappers

  /** An entry: its value and its expiry time, `None` for the zero time,
      which never expires. */
  datatype Entry<V> = Entry(value: V, expire: Option<int>)

  datatype Cache<V> = Cache(mm: map<string, Entry<V>>)

  function NewExpiringMap<V>(): (c: Cache<V>)
    ensures |c.mm| == 0
  {
    Cache(map[])
  }

  /** Whether an entry has expired at time `now`: it has an expiry time and
      `now` is after it. */
  predicate Expired<V>(e: Entry<V>, now: int) {
    e.expire.Some? && now > e.expire.value
  }

  /** `Add`: fails, changing nothing, when the key is present (expired or
      not); otherwise stores the value, expiring `timeout` after `now` when
      the timeout is positive and never otherwise. */
  function Add<V>(c: Cache<V>, key: string, value: V, timeout: int, now: int): (r: (Cache<V>, bool))
    ensures r.1 <==> key !in c.mm
    ensures !r.1 ==> r.0 == c
    ensures r.1 ==> r.0.mm.Keys == c.mm.Keys + {key}
    ensures r.1 ==> forall k :: k in c.mm ==> r.0.mm[k] == c.mm[k]
    ensures r.1 ==> r.0.mm[key].value == value
    ensures r.1 ==> (r.0.mm[key].expire.Some? <==> timeout > 0)
    ensures r.1 && timeout > 0 ==> r.0.mm[key].expire.value == now + timeout
  {
    if key in c.mm then (c, false)
    else (Cache(c.mm[key := Entry(value, if timeout > 0 then Some(now + timeout) else None)]), true)
  }

  /** `Get`: nothing for a missing key; nothing for an expired entry, which
      is then deleted; the value otherwise, changing nothing. */
  function Get<V>(c: Cache<V>, key: string, now: int): (r: (Cache<V>, Option<V>))
    ensures r.1.Some? <==> key in c.mm && !Expired(c.mm[key], now)
    ensures r.1.Some? ==> r.1.value == c.mm[key].value && r.0 == c
    ensures key !in c.mm ==> r.0 == c
    ensures key in c.mm && Expired(c.mm[key], now) ==> r.0 == Del(c, key)
  {
    if key !in c.mm then (c, None)
    else
      var e := c.mm[key];
      if Expired(e, now) then (Del(c, key), None)
      else (c, Some(e.value))
  }

  /** `Del`: removes the key and nothing else. */
  function Del<V>(c: Cache<V>, key: string): (r: Cache<V>)
    ensures key !in r.mm
    ensures r.mm.Keys == c.mm.Keys - {key}
    ensures forall k :: k in r.mm ==> r.mm[k] == c.mm[k]
  {
    Cache(c.mm - {key})
  }

  /** A value added under a fresh key is read back until its timeout has
      passed, and never after. */
  lemma AddThenGet<V>(c: Cache<V>, key: string, value: V, timeout: int, now: int, later: int)
    requires key !in c.mm
    ensures var c1 := Add(c, key, value, timeout, now).0;
            Get(c1, key, later).1 == (if timeout > 0 && later > now + timeout then None else Some(value))
  {
  }

  /** Once an expired entry has been read, the key can be added again. */
  lemma ExpiredGetFreesKey<V>(c: Cache<V>, key: string, now: int, value: V, timeout: int, now2: int)
    requires key in c.mm && Expired(c.mm[key], now)
    ensures var c1 := Get(c, key, now).0;
            key in c.mm && key !in c1.mm && Add(c1, key, value, timeout, now2).1
  {
  }

  /** Operations on one key leave every other key's entry as it was. */
  lemma OtherKeysUntouched<V>(c: Cache<V>, key: string, other: string, value: V, timeout: int, now: int)
    requires other != key && other in c.mm
    ensures var a := Add(c, key, value, timeout, now).0;
            other in a.mm && a.mm[other] == c.mm[other]
    ensures var g := Get(c, key, now).0;
            other in g.mm && g.mm[other] == c.mm[other]
    ensures var d := Del(c, key);
            other in d.mm && d.mm[other] == c.mm[other]
  {
  }

  /** Reading is idempotent: a second read at the same time gives the same
      answer, and leaves the map as the first read left it. */
  lemma {:induction false} GetIdempotent<V>(c: Cache<V>, key: string, now: int)
    ensures var (c1, v1) := Get(c, key, now);
            Get(c1, key, now) == (c1, if v1.Some? then v1 else None)
  {
  }
}
