# Ember router: bucket cache and active-route resolution

This project is a Dafny model of two small pieces of Ember's router.

- `cache.dfy`, module `Cache`: the `BucketCache`, a two-tiered key-value store. A value is filed first under a bucket key, typically a route's identity, and then under a property name. The cache is a class whose `cache` field is a `map<string, map<string, V>>`. `Stash` reassigns that field. `Has` and `Lookup` are read-only methods, and because they have no `modifies` clause they cannot change the cache. The value functions `Get` and `Put` specify reads and writes on the nested map. Their contracts and the lemmas next to them state the cache's promises: a write followed by a read returns the written value, the default comes back on a miss, pairs are isolated from each other, the last write wins, and buckets and properties are only ever added.
- `routing.dfy`, module `Routing`: the routing service's `isActiveForRoute` and the counting loop `numberOfContextsAcceptedByHandler` beside it. The recognizer's handler chain is an input `seq<HandlerInfo>`. The router state's `isActiveIntent` is a function-typed parameter. The loop is a method whose result is proved equal to `MaximumContexts`. That function counts the dynamic segments of the chain up to and including the first handler with the target name, or of the whole chain when no handler has that name. `PromotedRouteName` is the substitution rule that uses the leaf's name when more contexts are supplied than the count allows.

## Model

| member | source | states |
|---|---|---|
| `Cache.Get` | packages/ember-routing/lib/system/cache.js:29-43 | a read returns the default when the bucket is absent, and also when the bucket exists but lacks the property; otherwise it returns the stored value, whatever that value is, because presence is a membership test |
| `Cache.Put` | packages/ember-routing/lib/system/cache.js:20-27 | a write adds exactly `bucketKey` to the set of buckets and makes the pair hold the new value; every other pair keeps its presence and its value; no bucket loses a property |
| `Cache.LookupAfterStash` | packages/ember-routing/lib/system/cache.js:26 | after a write, a read of that pair returns the written value for any default, a falsy value included |
| `Cache.StashIsolated` | packages/ember-routing/lib/system/cache.js:20-27 | a write leaves the read of every other pair, in the same bucket or another, unchanged, and creates no bucket other than its own |
| `Cache.StashOverwrites` | packages/ember-routing/lib/system/cache.js:26 | two writes to the same pair give the same cache as the second write alone |
| `Cache.StashesToDistinctPairsCommute` | packages/ember-routing/lib/system/cache.js:20-27 | writes to two different pairs can be applied in either order with the same result |
| `Cache.BucketCache.constructor` | packages/ember-routing/lib/system/cache.js:12-14 | a new cache has no buckets, so `Has` is false for every key and every read returns its default |
| `Cache.BucketCache.Has` | packages/ember-routing/lib/system/cache.js:16-18 | true exactly when the bucket exists; it changes nothing, so a miss creates no bucket |
| `Cache.BucketCache.Stash` | packages/ember-routing/lib/system/cache.js:20-27 | the new cache is `Put` of the old one: the bucket exists, no earlier bucket is lost, the pair reads back as the value, and all other pairs read as before |
| `Cache.BucketCache.Lookup` | packages/ember-routing/lib/system/cache.js:29-43 | returns what `Get` gives on the current cache and changes nothing |
| `Routing.FirstMatch` | packages/ember-routing/lib/services/routing.js:99-103 | the index of the first handler named `target`, or the chain's length when none is: every earlier handler has another name |
| `Routing.SegmentCountMonotone` | packages/ember-routing/lib/services/routing.js:98-100 | the running total of dynamic segments never decreases along the chain |
| `Routing.MaximumContextsWithoutMatch` | packages/ember-routing/lib/services/routing.js:97-107 | when no handler is named `target`, the count is the segment total of the whole chain |
| `Routing.MaximumContextsAtFirstMatch` | packages/ember-routing/lib/services/routing.js:99-103 | when the first handler named `target` is at index `k`, the count is the segment total of handlers `0..k` inclusive |
| `Routing.MaximumContextsIgnoresLaterHandlers` | packages/ember-routing/lib/services/routing.js:101-103 | once the chain contains a handler named `target`, appending handlers does not change the count |
| `Routing.MaximumContextsBounded` | packages/ember-routing/lib/services/routing.js:98-106 | the count is at least 0 and at most the segment total of the whole chain |
| `Routing.NumberOfContextsAcceptedByHandler` | packages/ember-routing/lib/services/routing.js:97-107 | the accumulating loop with its early `break` returns exactly `MaximumContexts` |
| `Routing.PromotedRouteName` | packages/ember-routing/lib/services/routing.js:76-91 | the name checked is always `routeName` or the leaf's name, and it differs from `routeName` exactly when more contexts are supplied than `routeName` accepts and the leaf has another name |
| `Routing.IsActiveForRoute` | packages/ember-routing/lib/services/routing.js:72-94 | the answer is the intent check's own answer for the leaf name when the contexts exceed the count, and for `routeName` otherwise; contexts and query parameters are passed unchanged and the exactness flag is the negation of `isCurrentWhenSpecified` |
| `Routing.PromotionMonotone` | packages/ember-routing/lib/services/routing.js:89-91 | if some number of contexts promotes the name to the leaf, every larger number does too |
| `Routing.PromotionWithoutMatch` | packages/ember-routing/lib/services/routing.js:75-91 | a route name that is not a handler of its own chain is promoted to the leaf exactly when the contexts exceed the whole chain's segment total |
| `Routing.ExactMatchExample` | packages/ember-routing/lib/services/routing.js:72-94 | a link to `posts.post` with one context, over the chain `posts` then `posts.post` with segment `post_id`, is checked as `posts.post` with ancestor matching off when `isCurrentWhenSpecified` is set |
| `Routing.ParentToLeafExample` | packages/ember-routing/lib/services/routing.js:72-94 | a link to `posts` with one context, over the chain `posts` then `posts.index` with segment `post_id`, is checked as `posts.index` |

## Left out

- The `console.log` calls in `stash` and `lookup` (cache.js:21, 30) are debug output and have no effect on any result, so they are not modelled.
- Keys are modelled as plain strings in clean maps. JavaScript's `in` also sees keys inherited through the prototype chain, so `has("toString")` is true on an empty cache. JavaScript also converts non-string keys to strings. The model has neither behaviour.
- `stash` tests the existing bucket by truthiness (`if (!bucket)`). Every bucket is an object, and objects are always truthy, so this is the same as the membership test the model uses.
- The object lifecycle around both pieces is not modelled: `EmberObject.extend`, `init`, `Service.extend`, and the `readOnly` computed properties of the routing service.
- The other routing-service operations are not part of this model: `availableRoutes`, `hasRoute`, `transitionTo`, `normalizeQueryParams` and `generateURL`. Each only forwards to router internals that the model does not include.
- `router.router.recognizer.handlersFor` is a call into the route recognizer, which the model does not include. Its result is taken as the input `handlers`. An unknown route name makes that call fail, and that failure is not modelled. Because the source reads the last element of the chain, `|handlers| > 0` is required.
- `routerState.isActiveIntent` is opaque. It is modelled as an arbitrary total function parameter, so nothing is assumed about how it decides.
- Concurrency is not modelled, because all of this code is synchronous.
