/** The TTL cache engine of index.js. One logical entry is kept as two
    records of a flat string-to-string store: the serialized value under
    ValuePrefix + key and, when a time-to-live was given, the decimal
    expiry bucket under ExpiryPrefix + key.

    Each operation is given first as a pure transition on the store (the
    functions below), then as a method of CacheStore, whose one piece of
    state is that store; the methods follow the source step by step and are
    proved to perform the transition. The current time bucket is passed in
    as `now` instead of being read from the clock. */
module Cache {
  import opened Wrappers
  import opened Decimal

  type Storage = map<string, string>

  const ValuePrefix: string := "cachestore-"
  const ExpiryPrefix: string := "cacheexpiration-"
  /** Milliseconds per time bucket: one minute. */
  const ExpiryUnits: nat := 60 * 1000

  /** currentTime: the minute bucket of a wall-clock reading in milliseconds
      since the epoch (Math.floor of the quotient). */
  function CurrentTime(epochMillis: int): (bucket: int)
    ensures bucket * ExpiryUnits <= epochMillis < (bucket + 1) * ExpiryUnits
  {
    epochMillis / ExpiryUnits
  }

  /** key.indexOf(CACHE_PREFIX) == 0 */
  predicate IsValueKey(k: string) {
    ValuePrefix <= k
  }

  /** key.indexOf(CACHE_EXPIRATION_PREFIX) == 0 */
  predicate IsExpiryKey(k: string) {
    ExpiryPrefix <= k
  }

  /** The filter flush applies: a record that belongs to the cache. */
  predicate IsCacheKey(k: string) {
    IsValueKey(k) || IsExpiryKey(k)
  }

  /** No store key carries both prefixes: they differ at index 5. */
  lemma PrefixesExclusive(k: string)
    ensures !(IsValueKey(k) && IsExpiryKey(k))
  {
    assert ValuePrefix[5] == 's' && ExpiryPrefix[5] == 'e';
    assert IsValueKey(k) ==> k[5] == 's';
  }

  function ValueKey(key: string): (r: string)
    ensures IsValueKey(r) && !IsExpiryKey(r)
    ensures r[|ValuePrefix|..] == key
  {
    var r := ValuePrefix + key;
    PrefixesExclusive(r);
    r
  }

  /** The expiry key with its prefix removed: key.replace(prefix, "") on a
      key that starts with the prefix, whose first occurrence is at index 0. */
  function StripExpiryPrefix(k: string): (key: string)
    requires IsExpiryKey(k)
    ensures ExpiryPrefix + key == k
  {
    k[|ExpiryPrefix|..]
  }

  function ExpiryKey(key: string): (r: string)
    ensures IsExpiryKey(r) && !IsValueKey(r)
    ensures StripExpiryPrefix(r) == key
  {
    var r := ExpiryPrefix + key;
    PrefixesExclusive(r);
    r
  }

  /** The value key flushExpired pairs with an expiry key. */
  function ValueKeyOf(expiryKey: string): (r: string)
    requires IsExpiryKey(expiryKey)
    ensures r == ValueKey(StripExpiryPrefix(expiryKey))
    ensures IsValueKey(r) && !IsExpiryKey(r)
  {
    ValuePrefix + StripExpiryPrefix(expiryKey)
  }

  /** getItem: the record under k, or None (null) when there is none. */
  function Lookup(s: Storage, k: string): Option<string> {
    if k in s then Some(s[k]) else None
  }

  /** `expiry && currentTime() >= parseInt(expiry, 10)`: an empty string is
      falsy, and a NaN compares false. */
  predicate Due(expiry: string, now: int) {
    expiry != "" && ParseInt(expiry).Some? && now >= ParseInt(expiry).value
  }

  /** The expiry record of `key` is present and due at `now`. */
  predicate ExpiryDue(s: Storage, key: string, now: int) {
    var expiry := Lookup(s, ExpiryKey(key));
    expiry.Some? && Due(expiry.value, now)
  }

  /** A truthy `time` argument: present and not zero. */
  predicate Truthy(ttl: Option<int>) {
    ttl.Some? && ttl.value != 0
  }

  /** The serializer pair standing for JSON.stringify / JSON.parse; `parse`
      gives None where JSON.parse throws. */
  datatype Codec<!V> = Codec(stringify: V -> string, parse: string -> Option<V>)

  /** What the promise returned by get settles to. */
  datatype GetResult<V> =
    | Value(value: V)   // resolved with the decoded value record
    | Null              // resolved with JSON.parse(null): there is no value record
    | Expired           // rejected: the entry was due and has been removed
    | Unparseable       // rejected: JSON.parse threw on the value record

  // ---- the operations as transitions of the store ----

  /** The store after get: both records go when the entry is due. */
  function GetEffect(s: Storage, key: string, now: int): (r: Storage)
    ensures ExpiryDue(s, key, now) ==> ValueKey(key) !in r && ExpiryKey(key) !in r
    ensures forall k :: k != ValueKey(key) && k != ExpiryKey(key) ==> Lookup(r, k) == Lookup(s, k)
    ensures !ExpiryDue(s, key, now) ==> r == s
  {
    if ExpiryDue(s, key, now) then s - {ExpiryKey(key), ValueKey(key)} else s
  }

  /** What get settles to. */
  function GetOutcome<V>(c: Codec<V>, s: Storage, key: string, now: int): GetResult<V> {
    if ExpiryDue(s, key, now) then Expired
    else
      match Lookup(s, ValueKey(key))
      case None => Null
      case Some(item) =>
        match c.parse(item)
        case Some(v) => Value(v)
        case None => Unparseable
  }

  /** The store after set(key, value, time), `encoded` being the serialized
      value: with a truthy time the expiry record is stamped `now + time`,
      without one it is cleared; the value record is written in both cases
      and nothing else changes. */
  function SetEffect(s: Storage, key: string, encoded: string, ttl: Option<int>, now: int): (r: Storage)
    ensures ValueKey(key) in r && r[ValueKey(key)] == encoded
    ensures Truthy(ttl) ==> ExpiryKey(key) in r && r[ExpiryKey(key)] == IntToDecimal(now + ttl.value)
    ensures !Truthy(ttl) ==> ExpiryKey(key) !in r
    ensures forall k :: k != ValueKey(key) && k != ExpiryKey(key) ==> Lookup(r, k) == Lookup(s, k)
  {
    if Truthy(ttl) then s[ExpiryKey(key) := IntToDecimal(now + ttl.value)][ValueKey(key) := encoded]
    else (s - {ExpiryKey(key)})[ValueKey(key) := encoded]
  }

  /** The store after remove(key): both records are gone, nothing else changes. */
  function RemoveEffect(s: Storage, key: string): (r: Storage)
    ensures ValueKey(key) !in r && ExpiryKey(key) !in r
    ensures forall k :: k != ValueKey(key) && k != ExpiryKey(key) ==> Lookup(r, k) == Lookup(s, k)
  {
    s - {ExpiryKey(key), ValueKey(key)}
  }

  /** The records flush removes. */
  function CacheKeys(s: Storage): set<string> {
    set k | k in s && IsCacheKey(k)
  }

  /** The store after flush: no record of either prefix remains, and every
      other record keeps its value. */
  function FlushEffect(s: Storage): (r: Storage)
    ensures forall k :: k in r ==> !IsCacheKey(k)
    ensures forall k :: !IsCacheKey(k) ==> Lookup(r, k) == Lookup(s, k)
  {
    s - CacheKeys(s)
  }

  /** The expiry keys among `ks` whose record in `s` is due at `now`. */
  function DueAmong(s: Storage, ks: set<string>, now: int): set<string> {
    set k | k in ks && k in s && IsExpiryKey(k) && Due(s[k], now)
  }

  /** Every due expiry key of the store. */
  function DueKeys(s: Storage, now: int): set<string> {
    DueAmong(s, s.Keys, now)
  }

  /** The records flushExpired removes for the expiry keys among `ks`: each
      due expiry key together with its value key. */
  function SweptAmong(s: Storage, ks: set<string>, now: int): set<string> {
    DueAmong(s, ks, now) + set e | e in DueAmong(s, ks, now) && IsExpiryKey(e) :: ValueKeyOf(e)
  }

  /** The store after flushExpired at `now`. */
  function FlushExpiredEffect(s: Storage, now: int): Storage {
    s - SweptAmong(s, s.Keys, now)
  }

  /** Two expiry keys pair with the same value key only if they are equal. */
  lemma ValueKeyOfInjective(e1: string, e2: string)
    requires IsExpiryKey(e1) && IsExpiryKey(e2)
    requires ValueKeyOf(e1) == ValueKeyOf(e2)
    ensures e1 == e2
  {
  }

  /** Visiting one more key adds it to the due keys exactly when it is a
      due expiry key. */
  lemma DueAmongStep(s: Storage, done: set<string>, key: string, now: int)
    ensures DueAmong(s, done + {key}, now) ==
      DueAmong(s, done, now) + (if key in s && IsExpiryKey(key) && Due(s[key], now) then {key} else {})
  {
  }

  /** Sweeping one more key adds its pair of records when it is a due
      expiry key and nothing otherwise. */
  lemma SweptAmongStep(s: Storage, done: set<string>, key: string, now: int)
    ensures SweptAmong(s, done + {key}, now) ==
      SweptAmong(s, done, now) +
      (if key in s && IsExpiryKey(key) && Due(s[key], now) then {key, ValueKeyOf(key)} else {})
  {
    DueAmongStep(s, done, key, now);
  }

  /** A record outside the swept set of the keys already visited is still
      what it was before the sweep. */
  lemma UnsweptRecord(s: Storage, done: set<string>, key: string, now: int)
    requires IsExpiryKey(key) && key !in done
    ensures key !in SweptAmong(s, done, now)
    ensures ValueKeyOf(key) !in SweptAmong(s, done, now)
  {
  }

  /** What flushExpired has listed after visiting the keys `done` of the
      snapshot `orig`: `order` lists each due expiry key among them once,
      and `deleted` holds its original value record at the same position. */
  ghost predicate ListedSoFar(orig: Storage, done: set<string>, now: int,
                              deleted: seq<Option<string>>, order: seq<string>)
  {
    && |order| == |deleted|
    && (forall i :: 0 <= i < |order| ==>
         order[i] in DueAmong(orig, done, now) && deleted[i] == Lookup(orig, ValueKeyOf(order[i])))
    && (forall e :: e in DueAmong(orig, done, now) ==> e in order)
    && (forall i, j :: 0 <= i < j < |order| ==> order[i] != order[j])
  }

  /** What flushExpired has achieved after visiting the keys `done`: the
      store lacks exactly their swept records, and the list is as above. */
  ghost predicate SweptSoFar(orig: Storage, done: set<string>, now: int, storage: Storage,
                             deleted: seq<Option<string>>, order: seq<string>)
  {
    storage == orig - SweptAmong(orig, done, now) && ListedSoFar(orig, done, now, deleted, order)
  }

  /** An expiry key the sweep has not visited yet still has its original
      records. */
  lemma SweepReadsOriginal(orig: Storage, done: set<string>, key: string, now: int, storage: Storage,
                           deleted: seq<Option<string>>, order: seq<string>)
    requires SweptSoFar(orig, done, now, storage, deleted, order)
    requires key !in done && IsExpiryKey(key)
    ensures Lookup(storage, key) == Lookup(orig, key)
    ensures Lookup(storage, ValueKeyOf(key)) == Lookup(orig, ValueKeyOf(key))
  {
    UnsweptRecord(orig, done, key, now);
  }

  /** Visiting a key that is not a due expiry key changes nothing and
      extends what the sweep has achieved to that key. */
  lemma SweepVisitSkip(orig: Storage, done: set<string>, key: string, now: int, storage: Storage,
                       deleted: seq<Option<string>>, order: seq<string>)
    requires SweptSoFar(orig, done, now, storage, deleted, order)
    requires key !in done
    requires !(key in orig && IsExpiryKey(key) && Due(orig[key], now))
    ensures SweptSoFar(orig, done + {key}, now, storage, deleted, order)
  {
    DueAmongStep(orig, done, key, now);
    SweptAmongStep(orig, done, key, now);
  }

  /** Removing the pair of a due expiry key not yet visited keeps the store
      equal to the snapshot without the swept records. */
  lemma SweepRemoveDue(orig: Storage, done: set<string>, key: string, now: int, storage: Storage)
    requires storage == orig - SweptAmong(orig, done, now)
    requires key in orig && IsExpiryKey(key) && Due(orig[key], now)
    ensures storage - {key, ValueKeyOf(key)} == orig - SweptAmong(orig, done + {key}, now)
  {
    SweptAmongStep(orig, done, key, now);
  }

  /** Appending a due expiry key not yet visited, with its value record,
      keeps the list complete and free of repeats. */
  lemma SweepListDue(orig: Storage, done: set<string>, key: string, now: int,
                     deleted: seq<Option<string>>, order: seq<string>)
    requires ListedSoFar(orig, done, now, deleted, order)
    requires key !in done
    requires key in orig && IsExpiryKey(key) && Due(orig[key], now)
    ensures ListedSoFar(orig, done + {key}, now, deleted + [Lookup(orig, ValueKeyOf(key))], order + [key])
  {
    DueAmongStep(orig, done, key, now);
    var due, due' := DueAmong(orig, done, now), DueAmong(orig, done + {key}, now);
    assert key !in due;
    var order', deleted' := order + [key], deleted + [Lookup(orig, ValueKeyOf(key))];
    forall i | 0 <= i < |order'|
      ensures order'[i] in due' && deleted'[i] == Lookup(orig, ValueKeyOf(order'[i]))
    {
      if i < |order| {
        assert order'[i] == order[i] && deleted'[i] == deleted[i];
      }
    }
    forall e | e in due'
      ensures e in order'
    {
      if e != key {
        assert e in order;
      }
    }
    forall i, j | 0 <= i < j < |order'|
      ensures order'[i] != order'[j]
    {
      if j == |order| {
        assert order[i] in due;
      } else {
        assert order'[i] == order[i] && order'[j] == order[j];
      }
    }
  }

  /** Visiting a due expiry key: removing its pair of records and recording
      its value record extends what the sweep has achieved to that key. */
  lemma SweepVisitDue(orig: Storage, done: set<string>, key: string, now: int, storage: Storage,
                      deleted: seq<Option<string>>, order: seq<string>)
    requires SweptSoFar(orig, done, now, storage, deleted, order)
    requires key !in done
    requires key in orig && IsExpiryKey(key) && Due(orig[key], now)
    ensures SweptSoFar(orig, done + {key}, now, storage - {key, ValueKeyOf(key)},
                       deleted + [Lookup(orig, ValueKeyOf(key))], order + [key])
  {
    SweepRemoveDue(orig, done, key, now, storage);
    SweepListDue(orig, done, key, now, deleted, order);
  }

  // ---- the engine ----

  /** The CacheStore object: its storage is the AsyncStorage table. */
  class CacheStore<V> {
    var storage: Storage
    const codec: Codec<V>

    constructor (codec: Codec<V>, storage: Storage)
      ensures this.codec == codec && this.storage == storage
    {
      this.codec := codec;
      this.storage := storage;
    }

    /** get(key): first the expiry record, then (when not due) the value record. */
    method Get(key: string, now: int) returns (r: GetResult<V>)
      modifies this
      ensures r == GetOutcome(codec, old(storage), key, now)
      ensures storage == GetEffect(old(storage), key, now)
    {
      var theKey := ValueKey(key);
      var exprKey := ExpiryKey(key);
      var expiry := Lookup(storage, exprKey);
      if expiry.Some? && Due(expiry.value, now) {
        storage := storage - {exprKey, theKey};
        return Expired;
      }
      var item := Lookup(storage, theKey);
      if item.None? {
        r := Null;
      } else {
        var parsed := codec.parse(item.value);
        r := if parsed.Some? then Value(parsed.value) else Unparseable;
      }
    }

    /** set(key, value, time): with a truthy time the expiry record is
        written first; otherwise it is removed before the value is written. */
    method Set(key: string, value: V, ttl: Option<int>, now: int)
      modifies this
      ensures storage == SetEffect(old(storage), key, codec.stringify(value), ttl, now)
    {
      var theKey := ValueKey(key);
      var exprKey := ExpiryKey(key);
      if Truthy(ttl) {
        storage := storage[exprKey := IntToDecimal(now + ttl.value)];
        storage := storage[theKey := codec.stringify(value)];
      } else {
        storage := storage - {exprKey};
        storage := storage[theKey := codec.stringify(value)];
      }
    }

    /** remove(key): one batched removal of both records. */
    method Remove(key: string)
      modifies this
      ensures storage == RemoveEffect(old(storage), key)
    {
      storage := storage - {ExpiryKey(key), ValueKey(key)};
    }

    /** isExpired(key): true (the promise resolves) exactly when the expiry
        record is present and due; false (it rejects) when it is absent,
        empty, unparseable or not yet due. The store is only read. */
    method IsExpired(key: string, now: int) returns (expired: bool)
      ensures expired <==> ExpiryKey(key) in storage && Due(storage[ExpiryKey(key)], now)
    {
      var expiry := Lookup(storage, ExpiryKey(key));
      expired := expiry.Some? && Due(expiry.value, now);
    }

    /** flush(): filter all keys by prefix, then remove them in one batch. */
    method Flush()
      modifies this
      ensures storage == FlushEffect(old(storage))
    {
      var theKeys := set k | k in storage && IsCacheKey(k);
      storage := storage - theKeys;
    }

    /** flushExpired(): visit every key of a snapshot of the store; for each
        due expiry key record the value record (or None) and remove both.
        `sweepOrder` names, in visiting order, the expiry key each deleted
        value came from. */
    method FlushExpired(now: int) returns (deletedValues: seq<Option<string>>, ghost sweepOrder: seq<string>)
      modifies this
      ensures storage == FlushExpiredEffect(old(storage), now)
      ensures |sweepOrder| == |deletedValues|
      ensures forall i :: 0 <= i < |sweepOrder| ==>
        sweepOrder[i] in DueKeys(old(storage), now)
        && deletedValues[i] == Lookup(old(storage), ValueKeyOf(sweepOrder[i]))
      ensures forall e :: e in DueKeys(old(storage), now) ==> e in sweepOrder
      ensures forall i, j :: 0 <= i < j < |sweepOrder| ==> sweepOrder[i] != sweepOrder[j]
    {
      ghost var orig := storage;
      var keys := storage.Keys;
      var pending := keys;
      deletedValues, sweepOrder := [], [];
      while pending != {}
        invariant pending <= keys
        invariant SweptSoFar(orig, keys - pending, now, storage, deletedValues, sweepOrder)
        decreases pending
      {
        var key :| key in pending;
        ghost var done := keys - pending;
        if IsExpiryKey(key) {
          SweepReadsOriginal(orig, done, key, now, storage, deletedValues, sweepOrder);
          var expiry := Lookup(storage, key);
          if expiry.Some? && Due(expiry.value, now) {
            var theKey := ValuePrefix + StripExpiryPrefix(key);
            var item := Lookup(storage, theKey);
            SweepVisitDue(orig, done, key, now, storage, deletedValues, sweepOrder);
            deletedValues := deletedValues + [item];
            sweepOrder := sweepOrder + [key];
            storage := storage - {key, theKey};
          } else {
            SweepVisitSkip(orig, done, key, now, storage, deletedValues, sweepOrder);
          }
        } else {
          SweepVisitSkip(orig, done, key, now, storage, deletedValues, sweepOrder);
        }
        pending := pending - {key};
        assert keys - pending == done + {key};
      }
    }
  }
}
