/** What the cache promises across operations, stated over the transition
    functions of module Cache and therefore over every run of the
    CacheStore methods that perform them. */
module CacheProperties {
  import opened Wrappers
  import opened Decimal
  import opened Cache

  /** Clock readings later in time never give an earlier bucket. */
  lemma CurrentTimeMonotone(earlier: int, later: int)
    requires earlier <= later
    ensures CurrentTime(earlier) <= CurrentTime(later)
  {
  }

  /** The two prefixes keep the two records of all logical keys apart, and
      the prefix of an expiry key can be stripped to give the key back. */
  lemma KeysDisjoint(key: string, other: string)
    ensures ValueKey(key) != ExpiryKey(other)
    ensures ValueKey(key) == ValueKey(other) <==> key == other
    ensures ExpiryKey(key) == ExpiryKey(other) <==> key == other
    ensures StripExpiryPrefix(ExpiryKey(key)) == key
    ensures ValueKeyOf(ExpiryKey(key)) == ValueKey(key)
  {
  }

  /** An expiry record stamped with bucket b is due exactly from bucket b on. */
  lemma DueIffReached(b: int, now: int)
    ensures Due(IntToDecimal(b), now) <==> now >= b
  {
    ParseIntOfDecimal(b);
  }

  /** An expiry record parseInt cannot read (the empty string among them)
      is never due. */
  lemma UnreadableNeverDue(expiry: string, now: int)
    requires ParseInt(expiry) == None
    ensures !Due(expiry, now)
  {
  }

  /** isExpired and get agree: get rejects as expired exactly when
      isExpired resolves, and isExpired's rejection covers both a missing
      expiry record and one not yet due. */
  lemma IsExpiredMatchesGet<V>(c: Codec<V>, s: Storage, key: string, now: int)
    ensures GetOutcome(c, s, key, now) == Expired <==> ExpiryDue(s, key, now)
    ensures !ExpiryDue(s, key, now) <==>
      ExpiryKey(key) !in s || !Due(s[ExpiryKey(key)], now)
  {
  }

  /** After set(key, v, t) with a truthy t at bucket `now`, get at bucket
      `later` returns v and changes nothing while later < now + t, and from
      bucket now + t on fails and leaves neither record. */
  lemma SetWithTtlThenGet<V>(c: Codec<V>, s: Storage, key: string, v: V, t: int, now: int, later: int)
    requires t != 0
    requires c.parse(c.stringify(v)) == Some(v)
    ensures var s' := SetEffect(s, key, c.stringify(v), Some(t), now);
      later < now + t ==> GetOutcome(c, s', key, later) == Value(v) && GetEffect(s', key, later) == s'
    ensures var s' := SetEffect(s, key, c.stringify(v), Some(t), now);
      later >= now + t ==>
        && GetOutcome(c, s', key, later) == Expired
        && ValueKey(key) !in GetEffect(s', key, later)
        && ExpiryKey(key) !in GetEffect(s', key, later)
  {
    var s' := SetEffect(s, key, c.stringify(v), Some(t), now);
    DueIffReached(now + t, later);
    assert ExpiryDue(s', key, later) <==> later >= now + t;
  }

  /** After set(key, v) with no time or a zero time, get returns v at every
      bucket and changes nothing. */
  lemma SetWithoutTtlThenGet<V>(c: Codec<V>, s: Storage, key: string, v: V, ttl: Option<int>, now: int, later: int)
    requires !Truthy(ttl)
    requires c.parse(c.stringify(v)) == Some(v)
    ensures var s' := SetEffect(s, key, c.stringify(v), ttl, now);
      GetOutcome(c, s', key, later) == Value(v) && GetEffect(s', key, later) == s'
  {
  }

  /** set on one key leaves what get sees on every other key as it was. */
  lemma SetLeavesOtherKeys<V>(c: Codec<V>, s: Storage, key: string, other: string, encoded: string,
                              ttl: Option<int>, now: int, later: int)
    requires key != other
    ensures var s' := SetEffect(s, key, encoded, ttl, now);
      GetOutcome(c, s', other, later) == GetOutcome(c, s, other, later)
  {
  }

  /** After remove(key) both records are gone and get resolves with null
      (JSON.parse of the missing value record) rather than rejecting. */
  lemma RemoveThenGet<V>(c: Codec<V>, s: Storage, key: string, now: int)
    ensures var s' := RemoveEffect(s, key);
      GetOutcome(c, s', key, now) == Null && GetEffect(s', key, now) == s'
  {
  }

  /** A get that found the entry due leaves the key empty: the next get
      resolves with null, and no sweep finds its expiry record. */
  lemma GetAfterExpiredGet<V>(c: Codec<V>, s: Storage, key: string, now: int, later: int)
    requires ExpiryDue(s, key, now)
    ensures var s' := GetEffect(s, key, now);
      GetOutcome(c, s', key, later) == Null && ExpiryKey(key) !in DueKeys(s', later)
  {
  }

  /** After flush every get resolves with null, and flushing twice is
      flushing once. */
  lemma FlushThenGet<V>(c: Codec<V>, s: Storage, key: string, now: int)
    ensures GetOutcome(c, FlushEffect(s), key, now) == Null
    ensures FlushEffect(FlushEffect(s)) == FlushEffect(s)
  {
  }

  /** flushExpired removes both records of every entry whose expiry record
      is due. */
  lemma FlushExpiredDropsDue(s: Storage, key: string, now: int)
    requires ExpiryDue(s, key, now)
    ensures ExpiryKey(key) !in FlushExpiredEffect(s, now)
    ensures ValueKey(key) !in FlushExpiredEffect(s, now)
  {
  }

  /** flushExpired leaves both records of every entry whose expiry record is
      absent or not due exactly as they were. */
  lemma FlushExpiredKeepsActive(s: Storage, key: string, now: int)
    requires !ExpiryDue(s, key, now)
    ensures Lookup(FlushExpiredEffect(s, now), ExpiryKey(key)) == Lookup(s, ExpiryKey(key))
    ensures Lookup(FlushExpiredEffect(s, now), ValueKey(key)) == Lookup(s, ValueKey(key))
  {
  }

  /** flushExpired never touches a record outside the cache's two prefixes. */
  lemma FlushExpiredKeepsForeign(s: Storage, k: string, now: int)
    requires !IsCacheKey(k)
    ensures Lookup(FlushExpiredEffect(s, now), k) == Lookup(s, k)
  {
  }

  /** After flushExpired at `now` no due expiry record is left, so a second
      sweep at the same bucket removes nothing. */
  lemma FlushExpiredIdempotent(s: Storage, now: int)
    ensures DueKeys(FlushExpiredEffect(s, now), now) == {}
    ensures FlushExpiredEffect(FlushExpiredEffect(s, now), now) == FlushExpiredEffect(s, now)
  {
  }

  /** A worked scenario: set("a", v, 1) at bucket 100 stamps
      "101"; get at 100 returns v; get at 101 fails and removes both
      records, after which a sweep finds nothing for "a". */
  lemma ExampleScenario<V>(c: Codec<V>, s: Storage, v: V)
    requires c.parse(c.stringify(v)) == Some(v)
    ensures var s1 := SetEffect(s, "a", c.stringify(v), Some(1), 100);
      && s1[ExpiryKey("a")] == "101"
      && GetOutcome(c, s1, "a", 100) == Value(v)
      && GetOutcome(c, s1, "a", 101) == Expired
      && var s2 := GetEffect(s1, "a", 101);
         ExpiryKey("a") !in s2 && ValueKey("a") !in s2 && ExpiryKey("a") !in DueKeys(s2, 101)
  {
    assert NatToDecimal(10) == "10" by {
      assert NatToDecimal(1) == "1";
    }
    assert IntToDecimal(101) == "101";
    SetWithTtlThenGet(c, s, "a", v, 1, 100, 100);
    SetWithTtlThenGet(c, s, "a", v, 1, 100, 101);
  }
}
