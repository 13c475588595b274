# Verified model of the stock-investment site's cache and testimonial carousel

This project models two pieces of sequential logic from the site's source. It
also proves properties about them.

- **The TTL cache** (`src/lib/cache.ts`). This is a process-wide dictionary
  from string keys to entries `{data, expires}`. `set` writes or overwrites an
  entry that expires `ttl` seconds (60 by default) after the current clock
  reading. `get` returns the payload unless the key is missing or the entry has
  expired, which happens only when `expires < now`. In the module `TtlCache`,
  the dictionary is the `map` field of the class `Cache<T>`. The clock reading
  is the parameter `now`, in milliseconds. `Lookup`, `Stored` and `Replay` are
  the specification functions. The lemmas over them cover reading back a write,
  the strict expiry boundary, other keys staying unchanged, and the last write
  winning.
- **The testimonial carousel** (`src/components/testimonial_section.tsx`).
  This is the non-rendering part of the component: the fixed list of three
  testimonials and the state `(currentIndex, isAnimating)`. The "Next" and
  "Previous" handlers wrap the index modulo the list length and are ignored
  while the animation lock is held. The 500 ms timer, re-armed each time the
  index changes, releases the lock. The module also covers the five-star row,
  where star `i` is filled iff `i < rating`, and the caption `role[, company]`.
  In the module `TestimonialSection`, the state transitions are the functions
  `Next`, `Prev` and `Unlock`. The class `Carousel` holds the two state
  variables, and its handler methods are proved against those functions.
  `Run` replays any sequence of clicks and timer firings.

JavaScript's `%` truncates toward zero, so it is modelled explicitly as
`JsRem`. The caption's `company ? … : ""` test uses JavaScript truthiness, so
an empty company string counts as absent (`HasCompany`).

## Model

| member | source | states |
|---|---|---|
| TtlCache.ExpiresAt | src/lib/cache.ts:21-24 | A write at `now` with lifetime `ttl` seconds expires at `now + ttl*1000`. With the default lifetime this is `now + 60000`. A non-negative lifetime never expires before the write. |
| TtlCache.Lookup | src/lib/cache.ts:15-19 | A read returns nothing exactly when the key is absent or its entry's `expires < now` (strict, so `expires == now` is still served). Otherwise it returns the stored payload. |
| TtlCache.Stored | src/lib/cache.ts:21-26 | After a write, the keys are the old keys plus `key`. The entry under `key` holds `data` and expires at `now + ttl*1000`. Every other key keeps its entry. |
| TtlCache.ReadAfterWrite | src/lib/cache.ts:17-25 | After `set(k, d, ttl)` at `now`, a read of `k` at time `t` returns `d` iff `t <= now + ttl*1000`. In particular it returns `d` for every `t` in `[now, now + ttl*1000]` when `ttl >= 0`. |
| TtlCache.WriteLeavesOtherKeys | src/lib/cache.ts:22 | A write to `k` leaves the result of every read of any other key, at any time, unchanged. |
| TtlCache.ExpiryIsPermanent | src/lib/cache.ts:17 | If a read misses at `t`, every read of the same store at a later time misses too. |
| TtlCache.ReplayAppend | src/lib/cache.ts:21-26 | Applying two batches of writes one after the other is the same as applying the joined batch. |
| TtlCache.UntouchedKeyUnchanged | src/lib/cache.ts:22 | Writes that never name `k` leave the presence and the entry of `k` as they were. |
| TtlCache.NeverSetIsMissing | src/lib/cache.ts:16-17 | On a fresh cache, a key that no write ever named reads as absent at any time. |
| TtlCache.LastWriteWins | src/lib/cache.ts:22-25 | After any history of writes, the entry of a key is the one from its last write, whatever came before and whatever other keys were written after. |
| TtlCache.Cache.constructor | src/lib/cache.ts:11 | The cache starts with an empty store. |
| TtlCache.Cache.Get | src/lib/cache.ts:15-19 | Returns exactly `Lookup(store, key, now)`: nothing iff the key is missing or its entry has `expires < now`, and otherwise the stored payload. It has no `modifies` clause, so a read never changes the store and expired entries are not evicted. |
| TtlCache.Cache.Set | src/lib/cache.ts:21-26 | The new store is the old store with `key` mapped to `{data, now + ttl*1000}`. Every other key keeps its presence and entry. `ttl` defaults to 60. |
| TestimonialSection.JsRem | src/components/testimonial_section.tsx:56 | JavaScript remainder: it equals the Euclidean remainder for a non-negative dividend. For a negative dividend it lies in `(-b, 0]` and equals `a - b*q`, where `q` is the quotient truncated toward zero. |
| TestimonialSection.LengthIsListSize | src/components/testimonial_section.tsx:17-47 | The constant `Length` used in the arithmetic is the size of the testimonial list (3). |
| TestimonialSection.NextIndex | src/components/testimonial_section.tsx:56 | From an index on the list, `(i + 1) % testimonials.length` is again on the list and equals `(i+1) mod 3`. |
| TestimonialSection.PrevIndex | src/components/testimonial_section.tsx:63 | From an index on the list, `(i - 1 + testimonials.length) % testimonials.length` is again on the list and equals `(i-1) mod 3`. |
| TestimonialSection.BareDecrementGoesNegative | src/components/testimonial_section.tsx:63 | For every index on the list, the decrement without the added length is negative exactly when the index is 0 (it gives -1). With the added length, going back is never negative and from index 0 gives the last index. |
| TestimonialSection.Unlock | src/components/testimonial_section.tsx:67-70 | The timer callback clears the lock and keeps the index, so the state stays in range. On an unlocked state it changes nothing. |
| TestimonialSection.Next | src/components/testimonial_section.tsx:53-58 | Leaves the lock held. While locked, the state is unchanged. Otherwise the index becomes `(i+1) % 3`. The index stays in `[0, 3)`. |
| TestimonialSection.Prev | src/components/testimonial_section.tsx:60-65 | Leaves the lock held. While locked, the state is unchanged. Otherwise the index becomes `(i-1) mod 3`, which is never negative. The index stays in `[0, 3)`. |
| TestimonialSection.NavigationRearmsTimer | src/components/testimonial_section.tsx:53-70 | When unlocked, next and prev both change `currentIndex`. So the effect keyed on it runs again and arms the timer that releases the lock. |
| TestimonialSection.NextPrevInverse | src/components/testimonial_section.tsx:53-70 | From an unlocked in-range state, next, unlock, prev, unlock gives back the same state. So does prev, unlock, next, unlock. |
| TestimonialSection.RunStaysInRange | src/components/testimonial_section.tsx:50-70 | After any sequence of next/prev/timer events, `currentIndex` stays in `[0, 3)`. |
| TestimonialSection.PressesRotate | src/components/testimonial_section.tsx:53-70 | `n` presses of Next, each followed by the timer, move the index to `(i+n) mod 3` and leave it unlocked. For Previous the index becomes `(i-n) mod 3`. |
| TestimonialSection.FullCycle | src/components/testimonial_section.tsx:53-70 | Three presses of either button, each followed by the timer, return to the starting state. |
| TestimonialSection.Carousel.constructor | src/components/testimonial_section.tsx:50-51 | The first render shows index 0 with navigation unlocked. |
| TestimonialSection.Carousel.NextTestimonial | src/components/testimonial_section.tsx:53-58 | The handler updates the fields exactly as `Next` does and keeps the index on the list. |
| TestimonialSection.Carousel.PrevTestimonial | src/components/testimonial_section.tsx:60-65 | The handler updates the fields exactly as `Prev` does and keeps the index on the list. |
| TestimonialSection.Carousel.TimerElapsed | src/components/testimonial_section.tsx:67-70 | The timer callback clears `isAnimating` and keeps the index. |
| TestimonialSection.Carousel.Shown | src/components/testimonial_section.tsx:72 | The displayed card is the list entry at `currentIndex`. |
| TestimonialSection.Stars | src/components/testimonial_section.tsx:87-91 | Exactly 5 stars. Star `i` is filled iff `i < rating`, so the filled stars come first. |
| TestimonialSection.FilledPrefixCount | src/components/testimonial_section.tsx:87-91 | A row of `n` stars for `rating` has `rating` filled, clamped to `[0, n]`. |
| TestimonialSection.StarsShowRating | src/components/testimonial_section.tsx:87-91 | The 5-star row has `rating` filled stars, clamped to `[0, 5]`. For a rating in `[0, 5]` that is exactly the rating. |
| TestimonialSection.ListedStarsMatchRatings | src/components/testimonial_section.tsx:17-47 | Every listed testimonial shows as many filled stars as its rating. |
| TestimonialSection.Caption | src/components/testimonial_section.tsx:106-108 | The caption starts with the role. It equals the role alone iff there is no non-empty company. Otherwise the rest is `", " + company`. |
| TestimonialSection.ListedCaptions | src/components/testimonial_section.tsx:17-47 | The three cards read "Portfolio Manager, Capital Investments", "Retail Investor" and "Financial Advisor, Wealth Strategies Inc.". |

## Left out

- src/app/api/transactions/[id]/verify/route.ts: the deposit verification and settlement handler is not modelled. It is request handling over the database and a chain lookup, and the transaction model it reads and updates (src/lib/models/transaction) is not part of this model.
- src/lib/db.ts: memoising the asynchronous MongoDB connection and syncing indexes. This is I/O over an external library.
- src/contexts/user/use-user.ts, global.d.ts, next.config.ts and src/types/investment.ts contain no logic beyond a context lookup, type declarations and build settings.
- The wall clock `Date.now()` is the parameter `now`. The `async`/`Promise` wrappers of `get` and `set` are ordinary methods.
- TtlCache.Cache.Set: `ttl` is an integer. JavaScript's fractional, `NaN` and infinite numbers and their rounding are not modelled.
- TtlCache.Cache.Get: the model covers the store's own keys only. In the source the store is a plain object literal, so a key naming an `Object.prototype` member (`"constructor"`, `"toString"`, `"hasOwnProperty"`, `"__proto__"`, ...) finds the inherited member on a fresh cache. That member is truthy and has no `expires`, so `get` returns `undefined` instead of `null`. The model treats such a key as missing.
- TtlCache.Cache.Set: `set("__proto__", …)` in the source calls the inherited `__proto__` setter. It replaces the store's prototype instead of adding an entry, after which keys such as `"data"` and `"expires"` read inherited values. The model treats `"__proto__"` as an ordinary key, so its promise that every other key keeps its entry holds only for keys that do not name `Object.prototype` members.
- TtlCache.Cache.Get: a miss is `None`. In the source, a miss and a stored `null` payload both read as `null`, and the model does not capture that ambiguity.
- The cache is one explicitly constructed object. The module-level singleton and sharing it across concurrent requests are not modelled.
- TestimonialSection.Stars: `rating` is an integer. A fractional rating such as 4.5, which would fill the star at index 4, is not modelled.
- The JSX rendering, CSS classes, `next/image`, quote, author and avatar display are not modelled.
- The timer's 500 ms delay and its `clearTimeout` cleanup are not modelled. The timer firing is the explicit `TimerElapsed` step, which may happen at any point.
- React state batching is not modelled. Each handler here sees the latest `isAnimating`. In the source a handler reads `isAnimating` from the current render while the index update is functional. So two clicks delivered before a re-render could both pass the lock.
