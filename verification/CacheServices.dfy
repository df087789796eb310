/**
 * CacheService: the Redis commands the services use, with the clock as part of its state.
 * Keys are of any type; a client shows that its keys are rendered as different texts.
 */
module CacheServices {
  import opened Prelude
  import opened Redis

  /** Math.ceil. */
  function Ceil(x: real): (n: int)
    ensures n as real - 1.0 < x <= n as real
  {
    -((-x).Floor)
  }

  type Positive = n: int | n >= 1 witness 1

  class CacheService<K(==)> {
    var store: Store<K>
    var now: int
    /** Clock resolution: 1 counts whole seconds, 1000 milliseconds. */
    const ticksPerSecond: Positive

    constructor (start: int, resolution: Positive)
      ensures store == map[] && now == start && ticksPerSecond == resolution
    {
      store, now, ticksPerSecond := map[], start, resolution;
    }

    /** Some time passes, for instance while a call waits for the network. */
    method Elapse()
      modifies this`now
      ensures now >= old(now)
    {
      var ticks :| ticks >= 0;
      now := now + ticks;
    }

    /** Rounds a lifetime up to whole seconds; a lifetime that is not positive is an error. */
    method NormalizeTtl(ttl: real) returns (r: Result<int, string>)
      ensures r.Success? <==> ttl > 0.0
      ensures r.Success? ==> r.value >= 1 && ttl <= r.value as real < ttl + 1.0
    {
      if ttl <= 0.0 {
        return Failure("Cache TTL must be a positive number.");
      }
      return Success(Ceil(ttl));
    }

    method Get(key: K) returns (r: Option<Value>)
      ensures r == Redis.Get(store, now, key)
    {
      if key !in store || store[key].until <= now {
        return None;
      }
      return Some(store[key].value);
    }

    method Set(key: K, value: Value, ttl: Positive)
      modifies this`store
      ensures store == old(store)[key := Entry(value, now + ttl * ticksPerSecond)]
      ensures Redis.Get(store, now, key) == Some(value)
    {
      var seconds := NormalizeTtl(ttl as real);
      store := store[key := Entry(value, now + seconds.value * ticksPerSecond)];
    }

    method Del(keys: set<K>)
      modifies this`store
      ensures store == old(store) - keys
      ensures forall k :: k in keys ==> !Live(store, now, k)
    {
      store := store - keys;
    }

    /** Remaining lifetime in seconds, rounded to the nearest as Redis does; -2 for no key. */
    method Ttl(key: K) returns (seconds: int)
      ensures !Live(store, now, key) ==> seconds == -2
      ensures Live(store, now, key) ==> seconds == (store[key].until - now + ticksPerSecond / 2) / ticksPerSecond
      ensures ticksPerSecond == 1 ==> (seconds > 0 <==> Live(store, now, key)) && seconds != -1
    {
      if key !in store || store[key].until <= now {
        return -2;
      }
      return (store[key].until - now + ticksPerSecond / 2) / ticksPerSecond;
    }

    /** INCR, then EXPIRE on the first increment: later increments never prolong the window. */
    method IncrementWithExpiry(key: K, ttl: Positive) returns (current: int)
      modifies this`store
      ensures store == Incr(old(store), now, key, ttl * ticksPerSecond)
      ensures current == Count(old(store), now, key) + 1
    {
      var seconds := NormalizeTtl(ttl as real);
      var live := key in store && now < store[key].until;
      current := (if live && store[key].value.Number? then store[key].value.n else 0) + 1;
      var until := if live then store[key].until else now;
      if current == 1 {
        until := now + seconds.value * ticksPerSecond;
      }
      store := store[key := Entry(Number(current), until)];
    }

    method SetIfNotExists(key: K, value: Value, ttl: Positive) returns (ok: bool)
      modifies this`store
      ensures store == SetNx(old(store), now, key, value, ttl * ticksPerSecond)
      ensures ok <==> !Live(old(store), now, key)
    {
      var seconds := NormalizeTtl(ttl as real);
      ok := key !in store || store[key].until <= now;
      if ok {
        store := store[key := Entry(value, now + seconds.value * ticksPerSecond)];
      }
    }

    method DeleteIfValueMatches(key: K, expected: Value) returns (ok: bool)
      modifies this`store
      ensures store == DelIfMatch(old(store), now, key, expected)
      ensures ok <==> Redis.Get(old(store), now, key) == Some(expected)
    {
      var value := Get(key);
      ok := value == Some(expected);
      if ok {
        store := store - {key};
      }
    }
  }
}
