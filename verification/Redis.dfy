/**
 * Redis as a key-value store whose entries expire. Every command names the moment it runs;
 * an entry that has expired is as good as absent.
 */
module Redis {
  import opened Prelude

  /** What the services keep in the cache. Serialisation to text is not modelled. */
  datatype Value =
    | Text(text: string)
    | Number(n: int)
    | OtpRecord(otpId: string, otpHash: Digest, expiresAt: int)

  datatype Entry = Entry(value: Value, until: int)

  type Store<K(==)> = map<K, Entry>

  predicate Live<K(==)>(s: Store<K>, now: int, k: K) {
    k in s && now < s[k].until
  }

  function Get<K(==)>(s: Store<K>, now: int, k: K): Option<Value> {
    if Live(s, now, k) then Some(s[k].value) else None
  }

  /** SET key value EX ttl NX: only an absent or expired key is set. */
  function SetNx<K(==)>(s: Store<K>, now: int, k: K, v: Value, ttl: int): Store<K> {
    if Live(s, now, k) then s else s[k := Entry(v, now + ttl)]
  }

  /** The counter after INCR, if the key holds one. */
  function Count<K(==)>(s: Store<K>, now: int, k: K): int {
    if Live(s, now, k) && s[k].value.Number? then s[k].value.n else 0
  }

  /** INCR, and EXPIRE if the counter is new. */
  function Incr<K(==)>(s: Store<K>, now: int, k: K, ttl: int): Store<K> {
    var n := Count(s, now, k) + 1;
    s[k := Entry(Number(n), if n == 1 then now + ttl else s[k].until)]
  }

  /** DEL if the value is the expected one. */
  function DelIfMatch<K(==)>(s: Store<K>, now: int, k: K, v: Value): Store<K> {
    if Get(s, now, k) == Some(v) then s - {k} else s
  }
}
