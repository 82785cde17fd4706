/**
 * The in-memory TTL cache. The clock is a parameter (`now`, in ms); a NaN
 * ttl or expiry is `None` ("never expires"); each `setTimeout` is an entry in
 * a table of pending deletions that fires through `FireTimer`.
 */
module InMemoryCacheModel {
  import opened Results
  import opened JsValue

  const DefaultCacheTtl: int := 5 * 1000

  /** Node runs a timer whose delay is not in `[1, 2^31 - 1]` after 1 ms. */
  const TimeoutMax: int := 0x7FFF_FFFF

  function TimerDelay(ttl: int): (d: int)
    ensures 1 <= d <= TimeoutMax
    ensures 1 <= ttl <= TimeoutMax ==> d == ttl
  {
    if 1 <= ttl <= TimeoutMax then ttl else 1
  }

  /** A stored value, its expiry time (`None`: never) and its pending timer, if any. */
  datatype Record = Record(value: Value, expire: Option<int>, timer: Option<nat>)

  /** A pending `setTimeout(() => this.del(key), ttl)`, due at `due`. */
  datatype Timer = Timer(key: string, due: int)

  /** The `put` rule for the expiry: a negative or NaN ttl never expires. */
  function ExpireFor(ttl: Option<int>, now: int): (e: Option<int>)
    ensures e.None? <==> ttl.None? || ttl.value < 0
    ensures e.Some? ==> e.value == now + ttl.value && e.value >= now
  {
    if ttl.None? || ttl.value < 0 then None else Some(ttl.value + now)
  }

  /** Whether `get` at time `now` still returns the record. */
  predicate Live(r: Record, now: int)
  {
    r.expire.None? || r.expire.value >= now
  }

  /** What `get(key)` returns at time `now`. */
  function GetResult(cache: map<string, Record>, key: string, now: int): Value
  {
    if key in cache && Live(cache[key], now) then cache[key].value else Null
  }

  /**
   * A value put with ttl `t` at time `t0` is read back up to `t0 + t` and is
   * gone after; with a NaN or negative ttl it never expires.
   */
  lemma PutThenGet(cache: map<string, Record>, key: string, value: Value, ttl: Option<int>,
                   t0: int, timer: Option<nat>, t1: int)
    ensures GetResult(cache[key := Record(value, ExpireFor(ttl, t0), timer)], key, t1) ==
      if ttl.None? || ttl.value < 0 || t1 <= t0 + ttl.value then value else Null
  {
  }

  /** Other keys read the same after a put. */
  lemma PutLeavesOthers(cache: map<string, Record>, key: string, r: Record, other: string, now: int)
    requires other != key
    ensures GetResult(cache[key := r], other, now) == GetResult(cache, other, now)
  {
  }

  class InMemoryCache {
    var ttl: Option<int>
    var cache: map<string, Record>
    /** The pending deletions, by timer handle. */
    var timers: map<nat, Timer>
    var nextTimer: nat

    /** Each record's timer, if any, is pending and deletes that record's key. */
    ghost predicate Valid()
      reads this
    {
      (forall k :: k in cache && cache[k].timer.Some? ==>
         cache[k].timer.value in timers && timers[cache[k].timer.value].key == k) &&
      (forall t :: t in timers ==> t < nextTimer)
    }

    constructor(ttl: Option<int> := Some(DefaultCacheTtl))
      ensures Valid()
      ensures this.ttl == ttl && cache == map[] && timers == map[]
    {
      this.ttl := ttl;
      cache := map[];
      timers := map[];
      nextTimer := 0;
    }

    /** `get(key)`: an expired record is deleted on the way, but its timer stays pending. */
    method Get(key: string, now: int) returns (v: Value)
      requires Valid()
      modifies this
      ensures Valid()
      ensures v == GetResult(old(cache), key, now)
      ensures key !in old(cache) ==> v == Null && cache == old(cache)
      ensures key in old(cache) && Live(old(cache)[key], now) ==> v == old(cache)[key].value && cache == old(cache)
      ensures key in old(cache) && !Live(old(cache)[key], now) ==> v == Null && cache == old(cache) - {key}
      ensures timers == old(timers) && nextTimer == old(nextTimer) && ttl == old(ttl)
    {
      if key !in cache {
        return Null;
      }
      var record := cache[key];
      if Live(record, now) {
        return record.value;
      }
      cache := cache - {key};
      return Null;
    }

    /**
     * `put(key, value, ttl = this.ttl)`: stores the record with its expiry and,
     * unless it never expires, schedules its deletion. A previous record's
     * timer is left pending.
     */
    method Put(key: string, value: Value, now: int, ttl: Option<int> := this.ttl)
      requires Valid()
      modifies this
      ensures Valid()
      ensures var e := ExpireFor(ttl, now);
        cache == old(cache)[key := Record(value, e, if e.Some? then Some(old(nextTimer)) else None)] &&
        timers == (if e.Some? then old(timers)[old(nextTimer) := Timer(key, now + TimerDelay(ttl.value))]
                   else old(timers))
      ensures forall t :: t in old(timers) ==> t in timers && timers[t] == old(timers)[t]
      ensures this.ttl == old(this.ttl)
    {
      var expire := ExpireFor(ttl, now);
      var timer: Option<nat> := None;
      if expire.Some? {
        timer := Some(nextTimer);
        timers := timers[nextTimer := Timer(key, now + TimerDelay(ttl.value))];
        nextTimer := nextTimer + 1;
      }
      cache := cache[key := Record(value, expire, timer)];
    }

    /** `del(key)`: cancels the record's own timer and removes the key; an absent key is left alone. */
    method Del(key: string)
      requires Valid()
      modifies this
      ensures Valid()
      ensures key !in old(cache) ==> cache == old(cache) && timers == old(timers)
      ensures key in old(cache) ==>
        cache == old(cache) - {key} &&
        timers == (if old(cache)[key].timer.Some? then old(timers) - {old(cache)[key].timer.value} else old(timers))
      ensures nextTimer == old(nextTimer) && ttl == old(ttl)
    {
      if key !in cache {
        return;
      }
      var record := cache[key];
      if record.timer.Some? {
        timers := timers - {record.timer.value};
      }
      cache := cache - {key};
    }

    /** `clear()`: empties the store; pending timers stay pending. */
    method Clear()
      requires Valid()
      modifies this
      ensures Valid()
      ensures cache == map[] && timers == old(timers) && nextTimer == old(nextTimer) && ttl == old(ttl)
    {
      cache := map[];
    }

    /**
     * A pending timer runs: it leaves the table and calls `del` on its key,
     * which deletes whatever record holds that key now, even one put after
     * the timer was scheduled.
     */
    method FireTimer(t: nat)
      requires Valid() && t in timers
      modifies this
      ensures Valid()
      ensures var key := old(timers)[t].key;
        cache == old(cache) - {key} &&
        timers == (if key in old(cache) && old(cache)[key].timer.Some?
                   then old(timers) - {t, old(cache)[key].timer.value}
                   else old(timers) - {t})
    {
      var key := timers[t].key;
      timers := timers - {t};
      // the body of `del(key)`; clearing the timer that is running is a no-op
      if key in cache {
        var record := cache[key];
        if record.timer.Some? {
          timers := timers - {record.timer.value};
        }
        cache := cache - {key};
      }
    }
  }
}
