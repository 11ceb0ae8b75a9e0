/** The service worker's three event handlers (install, activate, fetch),
    acting on the origin's cache storage. The storage is the state the
    handlers change; the network is a parameter saying what `fetch` produced. */
module Worker {
  import opened Config
  import opened Http
  import opened Storage
  import opened Policy

  /** What the fetch listener does with a request. */
  datatype Routing =
    | PassThrough                  // returned without `respondWith`: the browser fetches as usual
    | Respond(response: Response)  // `respondWith` settled with this response
    | Reject                       // `respondWith` got a rejected promise: the page sees a network error

  /** The network-first strategy, from the storage before (`names0`, `stores0`)
      to the storage after (`names1`, `stores1`). A fetched response, whatever
      its status, is returned as it is and put into the live store under the
      request URL (the put writes it unless the cache refuses it). A failed
      fetch falls back on the cache and then on the offline placeholder, and
      writes nothing. */
  ghost predicate NetworkFirstOutcome(
    names0: seq<string>, stores0: map<string, Store>,
    names1: seq<string>, stores1: map<string, Store>,
    request: Request, network: NetworkOutcome, now: string, routing: Routing)
  {
    match network
    case Fetched(response) =>
      && routing == Respond(response)
      && names1 == Opened(names0, CacheName)
      && stores1 == AfterPut(stores0, CacheName, request.url, response)
    case NetworkFailure =>
      && names1 == names0
      && stores1 == stores0
      && routing == Respond(
           match MatchIn(names0, stores0, request.url)
           case Some(cached) => cached
           case None => OfflineResponse(now))
  }

  /** The cache-first strategy. A cache hit is returned without consulting
      the network. On a miss the network is consulted: a failure is passed to
      the page, a fetched response is returned as it is, and only a cacheable
      one is put into the live store under the request URL. */
  ghost predicate CacheFirstOutcome(
    names0: seq<string>, stores0: map<string, Store>,
    names1: seq<string>, stores1: map<string, Store>,
    request: Request, network: NetworkOutcome, routing: Routing, consulted: bool)
  {
    match MatchIn(names0, stores0, request.url)
    case Some(cached) =>
      && routing == Respond(cached)
      && !consulted
      && names1 == names0
      && stores1 == stores0
    case None =>
      && consulted
      && match network
         case NetworkFailure =>
           && routing == Reject
           && names1 == names0
           && stores1 == stores0
         case Fetched(response) =>
           && routing == Respond(response)
           && (if IsCacheable(response) then
                 names1 == Opened(names0, CacheName) &&
                 stores1 == AfterPut(stores0, CacheName, request.url, response)
               else
                 names1 == names0 && stores1 == stores0)
  }

  class ServiceWorker {
    /** The store names, in creation order. */
    var names: seq<string>
    /** Each store's entries, keyed by request URL. */
    var stores: map<string, Store>

    ghost predicate Valid()
      reads this
    {
      Consistent(names, stores)
    }

    /** An origin with no stores yet. */
    constructor ()
      ensures Valid()
      ensures names == [] && stores == map[]
    {
      names := [];
      stores := map[];
    }

    /** `caches.open(name)`: creates the store if it does not exist. */
    method Open(name: string)
      requires Valid()
      modifies this
      ensures Valid()
      ensures names == Opened(old(names), name)
      ensures stores == Opening(old(stores), name)
    {
      OpenKeepsConsistent(names, stores, name);
      if name !in stores {
        names := names + [name];
        stores := stores[name := map[]];
      }
    }

    /** `caches.open(name)` followed by `cache.put(url, response)`. An
      accepted write overwrites any earlier entry for `url`; a refused one
      leaves the opened store as it was. */
    method Put(name: string, url: string, response: Response)
      requires Valid()
      modifies this
      ensures Valid()
      ensures names == Opened(old(names), name)
      ensures PutAccepts(response) ==> stores == WithEntry(old(stores), name, url, response)
      ensures !PutAccepts(response) ==> stores == Opening(old(stores), name)
    {
      WriteKeepsConsistent(names, stores, name, url, response);
      Open(name);
      if PutAccepts(response) {
        stores := stores[name := stores[name][url := response]];
      }
    }

    /** `caches.delete(name)`; it rejects, changing nothing, for a name in
      `failing`. */
    method Delete(name: string, failing: set<string>) returns (rejected: bool)
      requires Valid()
      modifies this
      ensures Valid()
      ensures rejected <==> name in failing
      ensures rejected ==> names == old(names) && stores == old(stores)
      ensures !rejected ==> names == Without(old(names), name) && stores == old(stores) - {name}
    {
      rejected := name in failing;
      if !rejected {
        WithoutDistinct(names, name);
        WithoutMembers(names, name);
        names := Without(names, name);
        stores := stores - {name};
      }
    }

    /** The install handler: open the live store and `addAll` the manifest
      `CoreAssets`, `outcomes[i]` being what fetching `CoreAssets[i]`
      produced. The result says whether the chain reached `skipWaiting`. */
    method Install(origin: string, outcomes: seq<NetworkOutcome>) returns (installed: bool)
      requires Valid()
      requires |outcomes| == |CoreAssets|
      modifies this
      ensures Valid()
      ensures installed <==> AddAllSucceeds(outcomes)
      ensures names == Opened(old(names), CacheName)
      ensures installed ==>
        stores == old(stores)[CacheName := StoreOf(old(stores), CacheName) + PrecacheEntries(origin, CoreAssets, outcomes)]
      ensures installed ==> forall i :: 0 <= i < |CoreAssets| ==> Resolve(origin, CoreAssets[i]) in stores[CacheName]
      ensures !installed ==> stores == Opening(old(stores), CacheName)
    {
      installed := Precache(CoreAssets, origin, outcomes);
    }

    /** Seeding the live store with `manifest`: open it and `addAll` the
      manifest. A failed `addAll` leaves the opened store as it was: no
      manifest entry is written. */
    method Precache(manifest: seq<string>, origin: string, outcomes: seq<NetworkOutcome>) returns (committed: bool)
      requires Valid()
      requires |outcomes| == |manifest|
      modifies this
      ensures Valid()
      ensures committed <==> AddAllSucceeds(outcomes)
      ensures names == Opened(old(names), CacheName)
      ensures committed ==>
        stores == old(stores)[CacheName := StoreOf(old(stores), CacheName) + PrecacheEntries(origin, manifest, outcomes)]
      ensures committed ==> forall i :: 0 <= i < |manifest| ==> Resolve(origin, manifest[i]) in stores[CacheName]
      ensures !committed ==> stores == Opening(old(stores), CacheName)
    {
      Open(CacheName);
      committed := AddAllSucceeds(outcomes);
      if committed {
        var entries := PrecacheEntries(origin, manifest, outcomes);
        stores := stores[CacheName := stores[CacheName] + entries];
      }
    }

    /** The callback activation maps over the store names: delete the store
      unless it is the live one. */
    method DeleteIfStale(name: string, failing: set<string>) returns (rejected: bool)
      requires Valid()
      modifies this
      ensures Valid()
      ensures rejected <==> name != CacheName && name in failing
      ensures name == CacheName || rejected ==> names == old(names) && stores == old(stores)
      ensures name != CacheName && !rejected ==> names == Without(old(names), name) && stores == old(stores) - {name}
    {
      rejected := false;
      if name != CacheName {
        rejected := Delete(name, failing);
      }
    }

    /** The activate handler: every store but the live one is deleted, the
      live store is never touched, and deleting a store in `failing` fails
      without stopping the others. The result says whether every deletion
      succeeded, so that the chain reached `clients.claim`. */
    method Activate(failing: set<string>) returns (claimed: bool)
      requires Valid()
      modifies this
      ensures Valid()
      ensures names == Survivors(old(names), failing)
      ensures stores == Restrict(old(stores), names)
      ensures claimed <==> forall n :: n in old(names) && n != CacheName ==> n !in failing
      ensures claimed ==> forall n :: n in names ==> n == CacheName
    {
      var cacheNames := names;
      RestrictListed(names, stores);
      var i := 0;
      claimed := true;
      while i < |cacheNames|
        invariant 0 <= i <= |cacheNames|
        invariant Valid()
        invariant names == Survivors(cacheNames[..i], failing) + cacheNames[i..]
        invariant stores == Restrict(old(stores), names)
        invariant claimed <==> AllDeleted(cacheNames[..i], failing)
      {
        var name := cacheNames[i];
        assert cacheNames[..i + 1] == cacheNames[..i] + [name];
        assert cacheNames[..i + 1][..i] == cacheNames[..i];
        ghost var before := names;
        var rejected := DeleteIfStale(name, failing);
        SurvivorsStep(cacheNames, i, failing, before, names, rejected);
        if rejected {
          claimed := false;
        } else if name != CacheName {
          RestrictWithout(old(stores), before, name);
        }
        i := i + 1;
      }
      assert cacheNames[..i] == cacheNames;
      SurvivorsMembers(cacheNames, failing);
      AllDeletedIff(cacheNames, failing);
    }

    /** The network-first path for weather-data requests; the network is
      always consulted. */
    method FetchNetworkFirst(request: Request, network: NetworkOutcome, now: string) returns (routing: Routing)
      requires Valid()
      modifies this
      ensures Valid()
      ensures NetworkFirstOutcome(old(names), old(stores), names, stores, request, network, now, routing)
    {
      match network
      case Fetched(response) =>
        Put(CacheName, request.url, response);
        routing := Respond(response);
      case NetworkFailure =>
        var cached := MatchIn(names, stores, request.url);
        match cached
        case Some(entry) =>
          routing := Respond(entry);
        case None =>
          routing := Respond(OfflineResponse(now));
    }

    /** The cache-first path for every other intercepted request. */
    method FetchCacheFirst(request: Request, network: NetworkOutcome) returns (routing: Routing, consulted: bool)
      requires Valid()
      modifies this
      ensures Valid()
      ensures CacheFirstOutcome(old(names), old(stores), names, stores, request, network, routing, consulted)
    {
      var cached := MatchIn(names, stores, request.url);
      if cached.Some? {
        return Respond(cached.value), false;
      }
      consulted := true;
      match network
      case NetworkFailure =>
        routing := Reject;
      case Fetched(response) =>
        if IsCacheable(response) {
          Put(CacheName, request.url, response);
        }
        routing := Respond(response);
    }

    /** The fetch listener: bypass, or dispatch on the request's class.
      `consulted` says whether `fetch` was called. */
    method HandleFetch(request: Request, network: NetworkOutcome, now: string) returns (routing: Routing, consulted: bool)
      requires Valid()
      modifies this
      ensures Valid()
      ensures Classify(request) == Bypass ==>
        routing == PassThrough && !consulted && names == old(names) && stores == old(stores)
      ensures Classify(request) == NetworkFirst ==>
        consulted && NetworkFirstOutcome(old(names), old(stores), names, stores, request, network, now, routing)
      ensures Classify(request) == CacheFirst ==>
        CacheFirstOutcome(old(names), old(stores), names, stores, request, network, routing, consulted)
    {
      match Classify(request)
      case Bypass =>
        routing, consulted := PassThrough, false;
      case NetworkFirst =>
        routing := FetchNetworkFirst(request, network, now);
        consulted := true;
      case CacheFirst =>
        routing, consulted := FetchCacheFirst(request, network);
    }
  }

  // -----------------------------------------------------------------------
  // What the strategies guarantee across requests
  // -----------------------------------------------------------------------

  /** The weather-data path always answers: it never rejects and never
      passes through, and without network or cache it answers with the
      offline placeholder stamped with `now`. */
  lemma NetworkFirstAlwaysAnswers(
    names0: seq<string>, stores0: map<string, Store>,
    names1: seq<string>, stores1: map<string, Store>,
    request: Request, network: NetworkOutcome, now: string, routing: Routing)
    requires NetworkFirstOutcome(names0, stores0, names1, stores1, request, network, now, routing)
    ensures routing.Respond?
    ensures network.NetworkFailure? && MatchIn(names0, stores0, request.url).None? ==>
      IsOfflinePlaceholder(routing.response) && OfflineMessage(routing.response)[|OfflineNotice|..] == now
  {
  }

  /** Once garbage collection has left only the live store, a weather-data
      request that reached the network and a later one that cannot reach it
      see the same response. */
  lemma NetworkFirstFallbackIsLatest(
    names0: seq<string>, stores0: map<string, Store>,
    names1: seq<string>, stores1: map<string, Store>,
    names2: seq<string>, stores2: map<string, Store>,
    request: Request, response: Response, now: string, first: Routing, second: Routing)
    requires Consistent(names0, stores0)
    requires forall n :: n in names0 ==> n == CacheName
    requires PutAccepts(response)
    requires NetworkFirstOutcome(names0, stores0, names1, stores1, request, Fetched(response), now, first)
    requires NetworkFirstOutcome(names1, stores1, names2, stores2, request, NetworkFailure, now, second)
    ensures first == second == Respond(response)
  {
    WriteKeepsConsistent(names0, stores0, CacheName, request.url, response);
    MatchSingleStore(names1, stores1, CacheName, request.url);
  }

  /** A cache-first miss filled from the network with a response the cache
      accepts makes the next identical request a hit on exactly that response,
      answered without the network. */
  lemma CacheFirstFillThenHit(
    names0: seq<string>, stores0: map<string, Store>,
    names1: seq<string>, stores1: map<string, Store>,
    names2: seq<string>, stores2: map<string, Store>,
    request: Request, response: Response, network: NetworkOutcome,
    first: Routing, firstConsulted: bool, second: Routing, secondConsulted: bool)
    requires IsCacheable(response) && PutAccepts(response)
    requires CacheFirstOutcome(names0, stores0, names1, stores1, request, Fetched(response), first, firstConsulted)
    requires firstConsulted
    requires CacheFirstOutcome(names1, stores1, names2, stores2, request, network, second, secondConsulted)
    ensures first == second == Respond(response)
    ensures !secondConsulted && names2 == names1 && stores2 == stores1
  {
    MatchAfterFill(names0, stores0, CacheName, request.url, response);
  }

  /** A response that is not cacheable leaves the storage as it was, so the
      next identical request misses again and goes back to the network. */
  lemma CacheFirstUncacheableNotStored(
    names0: seq<string>, stores0: map<string, Store>,
    names1: seq<string>, stores1: map<string, Store>,
    request: Request, response: Response, routing: Routing, consulted: bool)
    requires !IsCacheable(response)
    requires CacheFirstOutcome(names0, stores0, names1, stores1, request, Fetched(response), routing, consulted)
    requires consulted
    ensures routing == Respond(response)
    ensures names1 == names0 && stores1 == stores0
  {
  }

  /** A response the cache refuses (one that varies on everything; a 200 is
      never partial) is returned, but the next identical request misses
      again and goes back to the network. */
  lemma CacheFirstRefusedPutMissesAgain(
    names0: seq<string>, stores0: map<string, Store>,
    names1: seq<string>, stores1: map<string, Store>,
    request: Request, response: Response, routing: Routing, consulted: bool)
    requires Consistent(names0, stores0)
    requires !PutAccepts(response)
    requires CacheFirstOutcome(names0, stores0, names1, stores1, request, Fetched(response), routing, consulted)
    requires consulted
    ensures routing == Respond(response)
    ensures MatchIn(names1, stores1, request.url).None?
  {
    if IsCacheable(response) {
      MatchAfterOpen(names0, stores0, CacheName, request.url);
    }
  }
}
