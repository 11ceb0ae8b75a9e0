/** End-to-end runs of the worker on an origin that starts with no stores,
    showing what a page can rely on from the handlers' contracts alone. */
module Scenarios {
  import opened Strings
  import opened Config
  import opened Http
  import opened Storage
  import opened Policy
  import opened Worker

  /** Install with every manifest fetch succeeding, activate with no failed
      deletion, then ask for manifest asset `k` while the network is down:
      the response fetched for that asset at install time comes back, without
      a fetch. */
  method PrecacheServesOffline(origin: string, outcomes: seq<NetworkOutcome>, k: nat)
    returns (installed: bool, claimed: bool, routing: Routing, consulted: bool)
    requires |outcomes| == |CoreAssets| && AddAllSucceeds(outcomes)
    requires k < |CoreAssets|
    requires Classify(Request("GET", Resolve(origin, CoreAssets[k]))) == CacheFirst
    ensures installed && claimed && !consulted
    ensures routing == Respond(outcomes[k].response)
  {
    var worker := new ServiceWorker();
    installed := worker.Install(origin, outcomes);
    var entries := PrecacheEntries(origin, CoreAssets, outcomes);
    var url := Resolve(origin, CoreAssets[k]);
    assert worker.names == [CacheName];
    assert worker.stores[CacheName] == map[] + entries;
    claimed := worker.Activate({});
    OnlyLiveStoreSurvives([CacheName]);
    MatchSingleStore(worker.names, worker.stores, CacheName, url);
    CorePrecacheValue(origin, outcomes, k);
    routing, consulted := worker.HandleFetch(Request("GET", url), NetworkFailure, "");
  }

  /** A weather-data request with the network down and nothing cached is
      answered with the offline placeholder stamped with `now`. */
  method OfflineWeatherReply(url: string, now: string) returns (routing: Routing, consulted: bool)
    requires Classify(Request("GET", url)) == NetworkFirst
    ensures consulted && routing.Respond?
    ensures IsOfflinePlaceholder(routing.response)
    ensures OfflineMessage(routing.response)[|OfflineNotice|..] == now
  {
    var worker := new ServiceWorker();
    routing, consulted := worker.HandleFetch(Request("GET", url), NetworkFailure, now);
  }

  /** A static request filled from the network with a cacheable response is
      answered from the cache the next time, even with the network down. */
  method StaticFillThenHit(request: Request, response: Response)
    returns (first: Routing, second: Routing, secondConsulted: bool)
    requires Classify(request) == CacheFirst && IsCacheable(response) && PutAccepts(response)
    ensures first == Respond(response) && second == Respond(response)
    ensures !secondConsulted
  {
    var worker := new ServiceWorker();
    var firstConsulted;
    first, firstConsulted := worker.HandleFetch(request, Fetched(response), "");
    ghost var names1, stores1 := worker.names, worker.stores;
    second, secondConsulted := worker.HandleFetch(request, NetworkFailure, "");
    CacheFirstFillThenHit([], map[], names1, stores1, worker.names, worker.stores,
      request, response, NetworkFailure, first, firstConsulted, second, secondConsulted);
  }

  /** A store left by an earlier generation disappears once the current
      generation activates with no failed deletion; the live store stays. */
  method VersionBumpDropsOldStore(oldVersion: string, outcomes: seq<NetworkOutcome>)
    returns (claimed: bool, remaining: seq<string>)
    requires oldVersion != CacheVersion
    requires |outcomes| == |CoreAssets|
    ensures claimed
    ensures CacheNameFor(oldVersion) !in remaining
    ensures remaining == [CacheName]
  {
    var worker := new ServiceWorker();
    var oldName := CacheNameFor(oldVersion);
    DistinctVersionsDistinctNames(oldVersion, CacheVersion);
    assert oldName != CacheName;
    worker.Open(oldName);
    assert worker.names == [oldName];
    var installed := worker.Install("", outcomes);
    assert CacheName !in [oldName];
    assert worker.names == [oldName, CacheName];
    claimed := worker.Activate({});
    VersionBumpCollects(oldVersion);
    remaining := worker.names;
  }
}
