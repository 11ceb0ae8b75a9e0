# yt-weather service worker: caching policy model

A Dafny model of `sw.js`, the service worker of the yt-weather web app, and
proofs about it. The worker has three event handlers and a message listener:

- **install** opens the live store `yt-weather-v1.0.1` and precaches a fixed
  manifest of seven assets.
- **activate** deletes every store but the live one.
- **fetch** routes each request. Non-GET requests and `chrome-extension://`
  URLs pass through to the browser. Requests whose URL mentions
  `api.caiyunapp.com` are weather data and go network-first: the network
  response is cached, and a failed fetch falls back on the cache and then on a
  synthesized JSON "offline" reply. Every other request goes cache-first: a
  hit is answered without the network, and on a miss only a 200 `basic`
  response is written to the cache.
- **message**: the listener skips waiting when sent `{type: 'SKIP_WAITING'}`.

The origin's cache storage is the state. It is held by the class
`Worker.ServiceWorker` as the store names in creation order (`names`) and a
map from each name to its store (`stores`). A store maps a request URL to a
response. `caches.match` searches every store in creation order, not only the
live one, and the model does the same (`Storage.MatchIn`). The network is a
parameter: each handler is told whether `fetch` produced a response or failed.
A failing `caches.delete` is a set of names, `failing`, whose deletion rejects.
The current time of the offline reply is a string parameter.

Modules:

- `Strings`: `startsWith` and `includes`, with `includes` proved equal to a
  reference definition of a substring occurrence.
- `Config`: the version, the store name derived from it, the manifest and the
  router's constants.
- `Http`: requests, responses, network outcomes and JavaScript values.
- `Storage`: the storage as values, and the lookup `caches.match` performs.
- `Policy`: the decisions that depend on values alone. These are request
  classification, fill eligibility, the offline reply, the SKIP_WAITING
  test, the `addAll` commit rule and which stores survive activation.
- `Worker`: the handlers as methods of `ServiceWorker`, specified against the
  predicates `NetworkFirstOutcome` and `CacheFirstOutcome`, and lemmas that
  relate several requests.
- `Scenarios`: complete runs on a fresh origin that use only the handlers'
  contracts.

## Model

| member | source | states |
|---|---|---|
| Config.CacheNameFor | sw.js:2-3 | the store name starts with `yt-weather-` and the rest of it is exactly the version |
| Config.CacheNameValue | sw.js:2-3 | the live store is named `yt-weather-v1.0.1` |
| Config.DistinctVersionsDistinctNames | sw.js:2-3 | two different versions never name the same store, so bumping the version gives a fresh store |
| Strings.IncludesIff | sw.js:64 | the `includes` scan answers true exactly when the substring occurs at some index of the URL |
| Policy.Classify | sw.js:58-64 | covers the tests `Bypasses` and `IsApiRequest`: a request is passed through iff it is not GET or its URL starts with `chrome-extension://`; it is network-first iff it is an intercepted GET whose URL contains `api.caiyunapp.com`; it is cache-first iff it is an intercepted GET whose URL does not contain that host |
| Policy.OfflineResponse | sw.js:82-92 | the offline reply has status 200, statusText `OK` and `Content-Type: application/json`; its JSON body has exactly the fields `status: "offline"` and `message`, and the message is the offline notice followed by the given time |
| Policy.ShouldSkipWaiting | sw.js:128 | the worker skips waiting exactly when the message data is an object whose `type` property is the string `SKIP_WAITING`; the truthiness guard only prevents reading a property of `undefined` or `null` |
| Policy.PrecacheEntries | sw.js:24 | a committed `addAll` writes an entry for the resolved key of every manifest URL |
| Policy.PrecacheValue | sw.js:24 | the entry under a manifest URL's key is the response fetched for that URL, unless a later URL has the same key |
| Policy.CoreKeyUnique0 | sw.js:6-14 | whatever the origin, the key of manifest URL 0 differs from the key of every later manifest URL |
| Policy.CoreKeyUnique1 | sw.js:6-14 | the same for manifest URL 1 |
| Policy.CoreKeyUnique2 | sw.js:6-14 | the same for manifest URL 2 |
| Policy.CoreKeyUnique3 | sw.js:6-14 | the same for manifest URL 3 |
| Policy.CoreKeyUnique4 | sw.js:6-14 | the same for manifest URL 4 |
| Policy.CoreKeyUnique5 | sw.js:6-14 | the same for manifest URL 5; with the lemmas above, the seven keys are pairwise different |
| Policy.CorePrecacheValue | sw.js:6-24 | after a committed precache of `CORE_ASSETS`, the entry under each asset's key is exactly the response fetched for that asset |
| Policy.PrecachedFromManifest | sw.js:24 | every precached entry lies under the resolved key of some manifest URL and holds the response fetched for that URL |
| Policy.SurvivorsMembers | sw.js:38-47 | characterises `Survivors`: a store survives activation exactly when it existed before and is either the live store or its deletion failed |
| Policy.SurvivorsStep | sw.js:40-45 | visiting one name keeps it when it is the live store or its deletion is rejected, and otherwise removes only that name, keeping the order of the rest |
| Policy.AllDeletedIff | sw.js:39-50 | characterises `AllDeleted`: every deletion succeeds, so the chain reaches `clients.claim`, exactly when no store other than the live one is in `failing` |
| Policy.OnlyLiveStoreSurvives | sw.js:38-47 | when every deletion succeeds, at most the live store remains, and the live store remains if it existed |
| Policy.VersionBumpCollects | sw.js:38-47 | after a version bump, the previous generation's store is collected and only the live store is left |
| Storage.OpenKeepsConsistent | sw.js:21 | opening a store keeps every store listed exactly once |
| Storage.WriteKeepsConsistent | sw.js:70-71 | opening a store and writing into it keeps every store listed exactly once |
| Storage.WithoutMembers | sw.js:44 | deleting a store removes its name and keeps every other name |
| Storage.RestrictWithout | sw.js:44 | deleting a name drops exactly its store and leaves the other stores untouched |
| Storage.MatchIn | sw.js:77 | the lookup misses iff no listed store holds the URL; a hit is the entry of some listed store that holds it |
| Storage.MatchFirst | sw.js:99 | the store created first among those holding the URL supplies the match |
| Storage.MatchAfterFill | sw.js:114-116 | a URL no store held, once written into a store, is matched to exactly the written response |
| Storage.MatchAfterOpen | sw.js:114-116 | opening a store without writing into it leaves a missed URL missed, because a new store is empty |
| Storage.MatchSingleStore | sw.js:77 | once only one store can be listed, the lookup consults that store alone |
| Worker.ServiceWorker.Open | sw.js:21 | `caches.open` creates the store, listed last, only when it does not exist, and otherwise changes nothing |
| Worker.ServiceWorker.Put | sw.js:70-71 | opens the store; a response the cache accepts (`PutAccepts`: not 206, no `Vary: *`) is written under the URL, overwriting any earlier entry; a refused one leaves the opened store as it was; nothing else changes |
| Worker.ServiceWorker.Delete | sw.js:44 | a rejected `caches.delete` changes nothing; a successful one removes exactly that store and its name |
| Worker.ServiceWorker.Install | sw.js:20-25 | the live store is opened; the install succeeds iff every manifest fetch gave a 2xx response the cache accepts, not 206 and without `Vary: *` (`AddAllSucceeds`), and then the live store keeps its old entries and holds every `CORE_ASSETS` URL; otherwise no entry is written |
| Worker.ServiceWorker.Precache | sw.js:21-24 | the same commit rule for any manifest: either all of its entries are written into the live store or none is |
| Worker.ServiceWorker.DeleteIfStale | sw.js:40-45 | the live store is never deleted; any other store is deleted unless its deletion is rejected |
| Worker.ServiceWorker.Activate | sw.js:37-51 | the names left are the survivors in their original order, and each remaining store is the untouched old store; the chain reaches `clients.claim` iff no deletion failed, and then only the live store can remain |
| Worker.ServiceWorker.FetchNetworkFirst | sw.js:65-94 | the state change and the answer are as `NetworkFirstOutcome` describes: a fetched response is returned and put into the live store, which writes it when the cache accepts it; on failure the cached entry, or else the offline reply, is returned and nothing is written |
| Worker.ServiceWorker.FetchCacheFirst | sw.js:98-122 | the state change and the answer are as `CacheFirstOutcome` describes: a hit is returned without the network; on a miss a failure rejects and a fetched response is returned, being put into the live store only when it is a 200 `basic` response (`IsCacheable`) |
| Worker.ServiceWorker.HandleFetch | sw.js:56-124 | a bypassed request passes through with no fetch and no change; API requests take the network-first path and consult the network; all other requests take the cache-first path |
| Worker.NetworkFirstAlwaysAnswers | sw.js:75-92 | the network-first path never rejects or passes through, and without network or cache it answers with the offline reply stamped with the given time |
| Worker.NetworkFirstFallbackIsLatest | sw.js:66-79 | once only the live store is left, a later failed API fetch is answered with the response the last successful fetch returned, when the cache accepted it |
| Worker.CacheFirstFillThenHit | sw.js:99-119 | a miss filled with a cacheable response the cache accepts makes the next identical request a hit on that response, answered without the network and with no change to the storage |
| Worker.CacheFirstUncacheableNotStored | sw.js:108-109 | a fetched response that is not a 200 `basic` response is returned as it is and leaves the storage unchanged |
| Worker.CacheFirstRefusedPutMissesAgain | sw.js:105-119 | a fetched response the cache refuses is returned, and the next identical request misses again |
| Scenarios.PrecacheServesOffline | sw.js:20-103 | after a successful install and activation, a static manifest asset is answered, with the network down and without fetching, with exactly the response fetched for it at install time |
| Scenarios.OfflineWeatherReply | sw.js:75-92 | a weather-data request with no network and nothing cached is answered with the offline reply |
| Scenarios.StaticFillThenHit | sw.js:98-119 | a static request filled from the network with a response the cache accepts is answered from the cache the next time, even with the network down |
| Scenarios.VersionBumpDropsOldStore | sw.js:38-47 | a store of an earlier version disappears when the current version activates, and only the live store is left |

## Left out

- The real `fetch` and Cache API are not modelled. The network is a parameter and the storage is a value held by the worker.
- Promises are not modelled. Each handler's chain is modelled as running to completion in the order written.
- Worker.ServiceWorker.FetchNetworkFirst: the `cache.put` at sw.js:70-72 and sw.js:114-117 is not awaited. It is modelled as finished before the next request, either writing the entry or, for a refused response, writing nothing. The time between the answer and the write is not modelled.
- Worker.ServiceWorker.Install: `addAll` is modelled by its commit rule: every fetch must give a 2xx response that is not 206 and has no `Vary: *`. Its rejection of duplicate requests and of opaque `no-cors` fetches is not modelled.
- Policy.VariesOnEverything: a `Vary: *` header is recognised only when the header is spelt `Vary` and its whole value is `*`. Other capitalisations and a `*` inside a list of header names are not modelled.
- Worker.ServiceWorker.Activate: the parallel deletes under `Promise.all` are modelled as a sequential pass over the names. The result records only whether every deletion succeeded.
- `self.skipWaiting()` and `self.clients.claim()` (sw.js:28, 50, 129) are platform calls. The model reports only whether the chain reached them, as the results `installed` and `claimed`.
- `console.log` calls are left out.
- `new Date().toLocaleString()` (sw.js:85) is the `now` parameter.
- `JSON.stringify` is modelled as the ordered field list of the JSON object; no serialisation to text is modelled.
- Policy.Resolve: manifest URLs are keyed by origin plus path when they start with `/`, and kept as written otherwise. No other URL normalisation is modelled.
- Cache keys are request URLs. `Vary` matching on later lookups is not modelled. The request method is not part of the key, because only GET requests reach the cache.
- The `!response` test at sw.js:108 is left out. A fulfilled `fetch` always yields a response, so the test never holds.
- Policy.Truthy: numbers are integers, so a `NaN` message field is not modelled. It is falsy, and so is no command.
