/**
 * The Redis image cache: image bytes stored under "images:<id>" with a
 * 30-second expiry.
 *
 * Redis is a map from key to value and expiry deadline; a key is live up to
 * and including its deadline. The clock is the `now` parameter and a failed
 * round trip to Redis is the `fails` parameter; a failed Set stores nothing.
 */
module ImageCache {
  import opened Results
  import opened Clock

  newtype byte = x: int | 0 <= x < 256

  type ImageId = string
  type Key = string

  /** The format cacheImage without its "%s". */
  const Prefix: string := "images:"

  /** The expiry Post passes to Set. */
  const Ttl: nat := 30 * Second

  datatype Entry = Entry(value: seq<byte>, deadline: nat)

  type Store = map<Key, Entry>

  /** redis.Nil for a missing or expired key, or any other client error. */
  datatype CacheError = Nil | Backend

  datatype Posted = Posted(store: Store, err: Option<CacheError>)

  /** constructKey: the prefix followed by the id. */
  function ConstructKey(id: ImageId): (key: Key)
    ensures |key| == |Prefix| + |id|
    ensures key[..|Prefix|] == Prefix && key[|Prefix|..] == id
  {
    Prefix + id
  }

  /** The image id a cache key names, if it is a cache key at all. */
  function ImageIdOf(key: Key): (id: Option<ImageId>)
    ensures id.Some? <==> |Prefix| <= |key| && key[..|Prefix|] == Prefix
    ensures id.Some? ==> |id.value| == |key| - |Prefix| && id.value == key[|Prefix|..]
  {
    if |Prefix| <= |key| && key[..|Prefix|] == Prefix then Some(key[|Prefix|..]) else None
  }

  predicate Live(store: Store, key: Key, now: nat)
  {
    key in store && now <= store[key].deadline
  }

  /** Post: Set the key to the bytes with a 30-second expiry, replacing whatever was there. */
  function Post(store: Store, id: ImageId, image: seq<byte>, now: nat, fails: bool): (r: Posted)
    ensures fails ==> r == Posted(store, Some(Backend))
    ensures !fails ==> r.err == None && ConstructKey(id) in r.store && r.store[ConstructKey(id)] == Entry(image, now + Ttl)
    ensures forall k :: k != ConstructKey(id) ==> (k in r.store <==> k in store)
    ensures forall k :: k in store && k != ConstructKey(id) ==> r.store[k] == store[k]
  {
    if fails then Posted(store, Some(Backend))
    else Posted(store[ConstructKey(id) := Entry(image, now + Ttl)], None)
  }

  /** Get: the bytes under a live key; otherwise an error and no bytes. */
  function Get(store: Store, id: ImageId, now: nat, fails: bool): (r: Result<seq<byte>, CacheError>)
    ensures r.Ok? <==> !fails && Live(store, ConstructKey(id), now)
    ensures r.Ok? ==> r.value == store[ConstructKey(id)].value
    ensures !fails && !Live(store, ConstructKey(id), now) ==> r == Err(Nil)
    ensures fails ==> r == Err(Backend)
  {
    var key := ConstructKey(id);
    if fails then Err(Backend)
    else if key in store && now <= store[key].deadline then Ok(store[key].value)
    else Err(Nil)
  }

  /** The reply to EXISTS with one key: how many of the keys are live. */
  function ExistsCount(store: Store, key: Key, now: nat): (n: nat)
    ensures n <= 1
    ensures n == 1 <==> Live(store, key, now)
  {
    if Live(store, key, now) then 1 else 0
  }

  /** Exists: true when the count is exactly 1; an error is reported as false. */
  function Exists(store: Store, id: ImageId, now: nat, fails: bool): (b: bool)
    ensures b <==> !fails && Live(store, ConstructKey(id), now)
    ensures fails ==> !b
  {
    if fails then false else ExistsCount(store, ConstructKey(id), now) == 1
  }
}
