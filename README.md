# react-native-cache-store in Dafny

A model of the time-to-live cache engine of `index.js`. The engine keeps
each logical entry as two records in a flat string-to-string store
(AsyncStorage):

- the value record, under `"cachestore-" + key`, holding the serialized value;
- the expiry record, under `"cacheexpiration-" + key`, holding the decimal
  string of a minute bucket, present only when the entry was set with a
  time-to-live.

Files:

- `Wrappers.dfy` — `Option`, for a record that may be null and a number that may be NaN.
- `Decimal.dfy` — the two conversions of the expiry record: JavaScript's
  integer `toString` (`NatToDecimal`, `IntToDecimal`) and `parseInt(s, 10)`
  (`ParseInt`: leading white space, optional sign, longest digit run, `None`
  for NaN), with the round trip `ParseInt(IntToDecimal(i)) == Some(i)`.
- `Cache.dfy` — the key prefixes, `CurrentTime`, each operation as a pure
  transition of the store (`GetEffect`/`GetOutcome`, `SetEffect`,
  `RemoveEffect`, `FlushEffect`, `FlushExpiredEffect`), and the class
  `CacheStore<V>` whose one mutable field `storage: map<string, string>`
  stands for AsyncStorage. Its methods `Get`, `Set`, `Remove`, `IsExpired`,
  `Flush` and `FlushExpired` follow the source step by step and are proved
  to perform those transitions. Each method receives the current bucket
  `now` instead of reading the clock.
- `CacheProperties.dfy` — the properties that relate operations: round trips of
  `set` then `get` with and without a time-to-live, `remove` then `get`,
  `flush` and `flushExpired` keeping or dropping exactly the right records,
  and the idempotence of both sweeps.

Values are serialized by a `Codec<V>` pair standing for `JSON.stringify` /
`JSON.parse`. `parse` returns `None` where `JSON.parse` would throw. The
round trip is assumed only where a lemma needs it, as a precondition on the
value (`c.parse(c.stringify(v)) == Some(v)`), which is what JSON guarantees
for JSON-compatible values.

Notes on how the source behaves:

- `get` on a key with no value record (after `remove` or `flush`, say)
  resolves with `JSON.parse(null)`, that is null (`GetResult.Null`). It does
  not reject.
- A value record that does not parse makes `get` reject with the parse
  error (`GetResult.Unparseable`). It is not treated as a miss.
- `set` tests its time argument for truthiness, not positivity. A negative
  time is stamped as `now + time` and so is already due.
- `isExpired` is two-valued. Its rejection covers a missing expiry record and
  one not yet due alike (`CacheProperties.IsExpiredMatchesGet`).
- `get` and `isExpired` reject through `new Promise.reject(null)` (index.js:22,
  51). Depending on the Promise implementation, this either throws a
  TypeError (a native `Promise.reject` is not a constructor) or returns a
  promise rejected with null. The promise returned to the caller rejects
  either way. The model records the rejection and leaves the reason out.
- In a time-less `set` the removal of the expiry record is not awaited. In
  the sequential model the removal comes before the write, with nothing
  outstanding.

## Model

| member | source | states |
|---|---|---|
| `Decimal.NatToDecimal` | index.js:34 | the decimal string written for a bucket is non-empty, all digits, without leading zero, and denotes the number |
| `Decimal.IntToDecimal` | index.js:34 | `toString` of an integer: for i >= 0 a non-empty digit string without leading zero denoting i; for i < 0 a '-' followed by a digit string, not starting with '0', denoting -i |
| `Decimal.TrimStart` | index.js:20 | the part of the expiry string `parseInt` reads after skipping leading white space: a suffix whose dropped characters are all white space and whose first character is not |
| `Decimal.DigitPrefix` | index.js:20 | the digit run `parseInt` reads: a prefix of the input, all digits, followed by a non-digit or by the end |
| `Decimal.DigitPrefixOfDigitsThen` | index.js:20 | digits followed by nothing or a non-digit are read as exactly those digits |
| `Decimal.ParseIntOfDecimalThen` | index.js:20 | `parseInt` of a stamped number followed by any non-digit text gives that number back |
| `Decimal.ParseIntOfDecimal` | index.js:34 | `parseInt(String(n), 10) == n` for every integer n, so the stamp written by `set` is read back exactly by `get`, `isExpired` and `flushExpired` (line 20) |
| `Decimal.ParseInt` | index.js:20 | `parseInt(expiry, 10)` (also index.js:50 and 72): leading white space skipped, optional sign, longest digit run; its contract gives NaN for a string without digits, the empty string included; the round trips `ParseIntOfDecimal` and `ParseIntOfDecimalThen` state what it reads from a stamp |
| `Decimal.TrimStartUnchanged` | index.js:20 | a string that does not start with white space is read from its first character |
| `Decimal.ReadDigitsThen` | index.js:20 | a digit run followed by nothing or a non-digit is read as exactly its value |
| `Decimal.ParseIntOfDigitsThen` | index.js:20 | `parseInt` of digits followed by nothing or a non-digit is their value |
| `Decimal.ParseIntMinus` | index.js:20 | `parseInt` of a string starting with '-' is the negated reading of the digits after it, NaN when there are none |
| `Decimal.ParseIntOfNegated` | index.js:20 | `parseInt` of '-', digits, then nothing or a non-digit is the negated value of the digits |
| `Decimal.ParseIntOfNegatedDigitsThen` | index.js:20 | the same for the string built as '-' + digits + rest |
| `Cache.CurrentTime` | index.js:11-13 | the bucket is the floor of the milliseconds over 60000: `bucket * 60000 <= ms < (bucket + 1) * 60000` |
| `Cache.IsCacheKey` | index.js:57-59 | the filter of `flush`: a key starting with either prefix; `FlushEffect` and `CacheProperties.FlushThenGet` state that exactly these keys go |
| `Cache.Truthy` | index.js:33 | `if (time)`: a time that is present and not zero; `SetEffect` and the two set-then-get lemmas state what each branch does |
| `Cache.Due` | index.js:20 | `expiry && currentTime() >= parseInt(expiry, 10)` on a present record (also index.js:50 and 72); `CacheProperties.DueIffReached` and `CacheProperties.UnreadableNeverDue` state its meaning |
| `Cache.ExpiryDue` | index.js:19-20 | the expiry record of a logical key is present and `Due`; `CacheStore.IsExpired`, `GetEffect` and the `flushExpired` lemmas are stated in its terms |
| `Cache.PrefixesExclusive` | index.js:7-8 | no key starts with both `cachestore-` and `cacheexpiration-` |
| `Cache.ValueKey` | index.js:17 | the value key of a logical key carries the value prefix only, and stripping the prefix gives the key back |
| `Cache.ExpiryKey` | index.js:18 | the expiry key of a logical key carries the expiry prefix only, and `StripExpiryPrefix` gives the key back |
| `Cache.StripExpiryPrefix` | index.js:73 | `key.replace(prefix, "")` on a prefixed key removes exactly the leading prefix |
| `Cache.ValueKeyOf` | index.js:73 | the value key `flushExpired` pairs with an expiry key is the value key of the same logical key |
| `Cache.ValueKeyOfInjective` | index.js:73 | distinct expiry keys pair with distinct value keys |
| `Cache.GetOutcome` | index.js:19-27 | what `get` settles to: Expired when the entry is due, else null, the parsed value, or a parse failure; `CacheProperties.IsExpiredMatchesGet`, `SetWithTtlThenGet`, `SetWithoutTtlThenGet` and `RemoveThenGet` state its meaning |
| `Cache.GetEffect` | index.js:19-23 | a due entry loses both records, other keys unchanged; an entry not due leaves the store as it was |
| `Cache.SetEffect` | index.js:30-40 | the value record holds the encoded value; with a truthy time the expiry record holds the decimal of `now + time`, otherwise there is none; every other key is unchanged |
| `Cache.RemoveEffect` | index.js:43-45 | both records of the key are gone and every other key keeps its entry |
| `Cache.FlushEffect` | index.js:55-61 | no key with either prefix remains and every key with neither prefix keeps its value |
| `Cache.FlushExpiredEffect` | index.js:64-80 | the store after `flushExpired`: the snapshot without each due expiry key and its value key; `CacheProperties.FlushExpiredDropsDue`, `FlushExpiredKeepsActive`, `FlushExpiredKeepsForeign` and `FlushExpiredIdempotent` state its meaning, and `CacheStore.FlushExpired` is proved to produce it |
| `Cache.DueAmongStep` | index.js:69-72 | visiting one more key adds it to the due keys exactly when it is a due expiry key |
| `Cache.SweptAmongStep` | index.js:68-77 | visiting one more key of the sweep removes its pair of records exactly when it is a due expiry key |
| `Cache.UnsweptRecord` | index.js:71-74 | an expiry key not yet visited, and its value key, have not been removed by the keys visited so far, so the sweep reads their original records |
| `Cache.SweepReadsOriginal` | index.js:71-74 | during the sweep an unvisited expiry key and its value key still hold their original records |
| `Cache.SweepVisitSkip` | index.js:69-72 | visiting a key that is not a due expiry key leaves the store and the list as they are and keeps the sweep invariant |
| `Cache.SweepRemoveDue` | index.js:75 | removing the pair of a due expiry key keeps the store equal to the snapshot without the swept records |
| `Cache.SweepListDue` | index.js:74 | pushing the value record of a due expiry key keeps the list one-to-one with the due keys visited |
| `Cache.SweepVisitDue` | index.js:72-75 | visiting a due expiry key (read, push, remove) keeps the sweep invariant |
| `Cache.CacheStore.constructor` | index.js:15 | the engine starts over the given store and codec |
| `Cache.CacheStore.Get` | index.js:16-28 | the promise outcome is `Expired` when the expiry record is due (both records then removed), otherwise the decoded value record, `Null` when it is missing, `Unparseable` when it does not parse; the store changes only in the due case |
| `Cache.CacheStore.Set` | index.js:30-41 | the new store is `SetEffect` of the old one with the stringified value |
| `Cache.CacheStore.Remove` | index.js:43-45 | the new store is the old one without the key's two records |
| `Cache.CacheStore.IsExpired` | index.js:47-53 | resolves (true) iff the expiry record exists and is due at `now`; rejects (false) otherwise; the store is not changed |
| `Cache.CacheStore.Flush` | index.js:55-62 | the new store is the old one without every cache-prefixed key |
| `Cache.CacheStore.FlushExpired` | index.js:64-80 | the new store lacks exactly the due expiry keys and their value keys; the returned list holds, once for each due expiry key, that key's original value record (or null), and nothing else |
| `CacheProperties.CurrentTimeMonotone` | index.js:11-13 | a later clock reading never gives an earlier bucket |
| `CacheProperties.KeysDisjoint` | index.js:7-8 | no value key equals any expiry key; each key function is injective; stripping the expiry prefix inverts `ExpiryKey` |
| `CacheProperties.DueIffReached` | index.js:20 | a record stamped with bucket b is due exactly when `now >= b` |
| `CacheProperties.UnreadableNeverDue` | index.js:20 | an expiry string `parseInt` reads as NaN is never due |
| `CacheProperties.IsExpiredMatchesGet` | index.js:47-52 | `get` rejects as expired exactly when `isExpired` resolves; `isExpired` rejects both when there is no expiry record and when it is not yet due |
| `CacheProperties.SetWithTtlThenGet` | index.js:33-36 | after `set(k, v, t)` with truthy t at `now`, `get` before `now + t` returns v and changes nothing; from `now + t` on it fails and leaves neither record |
| `CacheProperties.SetWithoutTtlThenGet` | index.js:37-40 | after a time-less `set(k, v)`, `get` returns v at every bucket and changes nothing |
| `CacheProperties.SetLeavesOtherKeys` | index.js:30-40 | `set` on one key does not change what `get` sees on any other key |
| `CacheProperties.RemoveThenGet` | index.js:43-45 | after `remove(k)`, `get(k)` resolves with null and changes nothing |
| `CacheProperties.GetAfterExpiredGet` | index.js:20-22 | after `get` found an entry due, the next `get` resolves with null and a sweep finds no expiry record for the key |
| `CacheProperties.FlushThenGet` | index.js:55-61 | after `flush` every `get` resolves with null, and flushing twice equals flushing once |
| `CacheProperties.FlushExpiredDropsDue` | index.js:69-75 | a due entry loses both its records to `flushExpired` |
| `CacheProperties.FlushExpiredKeepsActive` | index.js:69-75 | an entry whose expiry record is absent or not due keeps both records unchanged |
| `CacheProperties.FlushExpiredKeepsForeign` | index.js:69 | a key with neither prefix is untouched by `flushExpired` |
| `CacheProperties.FlushExpiredIdempotent` | index.js:64-80 | after `flushExpired` no due expiry record remains, so a second sweep at the same bucket changes nothing |
| `CacheProperties.ExampleScenario` | index.js:19-36 | `set("a", v, 1)` at bucket 100 stamps "101"; `get` at 100 returns v; `get` at 101 fails and removes both records, after which no sweep finds "a" |

## Left out

- AsyncStorage as a device store and the `react-native` import (index.js:3): replaced by the in-memory map `storage`.
- Promises and asynchrony: each operation runs to completion in order, and its settled outcome is a return value (`GetResult`, a boolean for `isExpired`).
- Failures of the storage backend itself (rejected `getItem`, `setItem` or `multiRemove`): every backend call succeeds in the model.
- The `Promise.all` fan-out of `flushExpired` (index.js:68): modelled as a sequential loop over a snapshot of the keys, in an unspecified order. Per-key work touches disjoint records, so the final store does not depend on the order. Interleavings with concurrent `get`/`set`/`remove` calls are not modelled.
- The un-awaited `removeItem` in a time-less `set` (index.js:38): this race exists only under concurrency. The model removes before writing.
- The wall clock (`new Date().getTime()`, index.js:12): the bucket `now` is a parameter. `CurrentTime` gives the conversion from milliseconds.
- `FlushExpired`: uses one bucket `now` for all keys. The source reads `currentTime()` separately in each key's task, after an awaited `getItem` (index.js:72). A sweep that crosses a minute boundary can therefore test different keys against two buckets; the model does not capture that.
- The un-awaited `multiRemove` in an expired `get` (index.js:21): the promise rejects without waiting for the removal. The model completes the removal before returning `Expired`, as it does for the `removeItem` at index.js:38.
- `JSON.stringify` / `JSON.parse`: an abstract `Codec<V>`. A `stringify` that returns undefined (functions, undefined) is not modelled.
- Floating-point numbers: buckets and times are mathematical integers. A non-integer, NaN or string `time`, and precision loss beyond 2^53 in `currentTime() + time` or in `parseInt`, are not modelled.
- The commented-out startup flush (index.js:87-88).
