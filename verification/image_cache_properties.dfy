/** Keying and expiry properties of the image cache. */
module ImageCacheProperties {
  import opened Results
  import opened ImageCache

  /** Reading the id back out of a key gives the id it was built from. */
  lemma {:induction false} KeyRoundTrip(id: ImageId)
    ensures ImageIdOf(ConstructKey(id)) == Some(id)
  {
    var key := ConstructKey(id);
    assert key[..|Prefix|] == Prefix;
    assert key[|Prefix|..] == id;
  }

  /** Every cache key is built from the id it names. */
  lemma {:induction false} KeyFromId(key: Key)
    requires ImageIdOf(key).Some?
    ensures ConstructKey(ImageIdOf(key).value) == key
  {
    var id := key[|Prefix|..];
    assert key == key[..|Prefix|] + key[|Prefix|..];
    assert ConstructKey(id) == Prefix + id;
  }

  /** Distinct image ids have distinct keys. */
  lemma {:induction false} KeysAreInjective(a: ImageId, b: ImageId)
    ensures ConstructKey(a) == ConstructKey(b) <==> a == b
  {
    if ConstructKey(a) == ConstructKey(b) {
      KeyRoundTrip(a);
      KeyRoundTrip(b);
    }
  }

  /** A posted image is returned by Get, and reported by Exists, until its 30 seconds are up. */
  lemma PostThenGet(store: Store, id: ImageId, image: seq<byte>, now: nat, later: nat)
    requires now <= later
    ensures var s := Post(store, id, image, now, false).store;
            && (later <= now + Ttl ==> Get(s, id, later, false) == Ok(image) && Exists(s, id, later, false))
            && (later > now + Ttl ==> Get(s, id, later, false) == Err(Nil) && !Exists(s, id, later, false))
  {
  }

  /** Posting an image leaves the cached value of every other image as it was. */
  lemma {:induction false} PostIsolatesOtherImages(
    store: Store, id: ImageId, image: seq<byte>, now: nat, fails: bool, other: ImageId, t: nat, readFails: bool)
    requires other != id
    ensures var s := Post(store, id, image, now, fails).store;
            Get(s, other, t, readFails) == Get(store, other, t, readFails)
            && Exists(s, other, t, readFails) == Exists(store, other, t, readFails)
  {
    KeysAreInjective(id, other);
  }

  /** A second Post replaces the first image and restarts the expiry. */
  lemma PostReplaces(store: Store, id: ImageId, first: seq<byte>, second: seq<byte>, t1: nat, t2: nat)
    ensures var s := Post(Post(store, id, first, t1, false).store, id, second, t2, false).store;
            s == Post(store, id, second, t2, false).store
  {
  }

  /** Exists answers true exactly when a Get at the same moment would return bytes. */
  lemma ExistsAgreesWithGet(store: Store, id: ImageId, now: nat)
    ensures Exists(store, id, now, false) <==> Get(store, id, now, false).Ok?
  {
  }
}
