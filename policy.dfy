/** The worker's decisions that depend on values alone: which strategy a
    request gets, which fetched responses may fill the cache, the offline
    reply, the SKIP_WAITING check, when the precache commits, and which
    stores survive garbage collection. */
module Policy {
  import opened Strings
  import opened Config
  import opened Http
  import opened Storage

  // ---------------------------------------------------------------------
  // Request routing
  // ---------------------------------------------------------------------

  /** Requests the fetch listener returns from without calling `respondWith`. */
  predicate Bypasses(request: Request) {
    request.verb != InterceptedMethod || StartsWith(request.url, ExtensionScheme)
  }

  /** Weather-data requests: the URL mentions the API host anywhere. */
  predicate IsApiRequest(url: string) {
    Includes(url, ApiHost)
  }

  datatype Strategy = Bypass | NetworkFirst | CacheFirst

  /** The fetch listener's dispatch. Every request gets exactly one strategy;
      the API test is stated against the reference definition of a substring
      occurrence. */
  function Classify(request: Request): (s: Strategy)
    ensures s == Bypass <==> request.verb != "GET" || StartsWith(request.url, "chrome-extension://")
    ensures s == NetworkFirst <==>
      request.verb == "GET" && !StartsWith(request.url, "chrome-extension://") &&
      exists i :: 0 <= i <= |request.url| && OccursAt(request.url, "api.caiyunapp.com", i)
    ensures s == CacheFirst <==>
      request.verb == "GET" && !StartsWith(request.url, "chrome-extension://") &&
      forall i :: 0 <= i <= |request.url| ==> !OccursAt(request.url, "api.caiyunapp.com", i)
  {
    IncludesIff(request.url, ApiHost);
    if Bypasses(request) then Bypass
    else if IsApiRequest(request.url) then NetworkFirst
    else CacheFirst
  }

  /** A response fetched on a cache-first miss is stored only when it is a
      plain same-origin 200; every other response is handed back uncached. */
  predicate IsCacheable(response: Response) {
    response.status == 200 && response.responseType == Basic
  }

  /** The response's `Vary` header is `*`: it varies on something no
      request can describe, so no cache can hold it. */
  predicate VariesOnEverything(response: Response) {
    ("Vary", "*") in response.headers
  }

  /** What a cache accepts: `cache.put` and `addAll` reject a partial (206)
      response and one that varies on everything. */
  predicate PutAccepts(response: Response) {
    response.status != 206 && !VariesOnEverything(response)
  }

  /** The stores after `caches.open(name)` followed by `cache.put(url,
      response)`: the store is opened either way, and the entry is written
      only when the put is accepted. */
  function AfterPut(stores: map<string, Store>, name: string, url: string, response: Response): map<string, Store> {
    if PutAccepts(response) then WithEntry(stores, name, url, response) else Opening(stores, name)
  }

  // ---------------------------------------------------------------------
  // The offline reply
  // ---------------------------------------------------------------------

  /** The message field of a JSON body, if its second field is one. */
  function OfflineMessage(r: Response): string {
    if r.body.JsonObject? && |r.body.fields| == 2 && r.body.fields[1].0 == "message"
    then r.body.fields[1].1
    else ""
  }

  /** The wire contract of the placeholder the network-first path answers
      with when neither the network nor the cache can: status 200 "OK", a
      JSON content type, and a JSON object of exactly two fields, `status`
      set to "offline" and a `message` that opens with the offline notice. */
  ghost predicate IsOfflinePlaceholder(r: Response) {
    && r.status == 200
    && r.statusText == "OK"
    && ("Content-Type", "application/json") in r.headers
    && r.body.JsonObject?
    && |r.body.fields| == 2
    && r.body.fields[0] == ("status", "offline")
    && r.body.fields[1].0 == "message"
    && StartsWith(OfflineMessage(r), OfflineNotice)
  }

  /** The placeholder built at time `now` (the formatted local time). */
  function OfflineResponse(now: string): (r: Response)
    ensures IsOfflinePlaceholder(r)
    ensures OfflineMessage(r)[|OfflineNotice|..] == now
  {
    Response(
      200, "OK", Default,
      [("Content-Type", "application/json")],
      JsonObject([("status", "offline"), ("message", OfflineNotice + now)]))
  }

  // ---------------------------------------------------------------------
  // The message listener
  // ---------------------------------------------------------------------

  /** JavaScript truthiness. */
  predicate Truthy(v: JsValue) {
    match v
    case Undefined => false
    case Null => false
    case Bool(b) => b
    case Num(n) => n != 0
    case Str(s) => s != ""
    case Object(_) => true
  }

  /** Reading property `key`; reading any property of undefined or null throws,
      which the caller must rule out first. Primitives have no `type` property. */
  function Property(v: JsValue, key: string): JsValue
    requires v != Undefined && v != Null
  {
    if v.Object? && key in v.properties then v.properties[key] else Undefined
  }

  /** `event.data && event.data.type === 'SKIP_WAITING'`: the truthiness guard
      only keeps the property read from throwing; exactly the objects whose
      `type` is the command string ask the worker to skip waiting. */
  function ShouldSkipWaiting(data: JsValue): (skip: bool)
    ensures skip <==> data.Object? && "type" in data.properties && data.properties["type"] == Str("SKIP_WAITING")
  {
    Truthy(data) && Property(data, "type") == Str(SkipWaitingCommand)
  }

  // ---------------------------------------------------------------------
  // Precache
  // ---------------------------------------------------------------------

  /** The cache key of a manifest entry: a root-relative path is resolved
      against the worker's origin, an absolute URL is kept as written. */
  function Resolve(origin: string, url: string): string {
    if |url| > 0 && url[0] == '/' then origin + url else url
  }

  /** `addAll` commits only when every fetch produced a response with an ok
      status (200 to 299) that a cache accepts; otherwise it rejects and
      writes nothing. */
  predicate AddAllSucceeds(outcomes: seq<NetworkOutcome>) {
    forall i :: 0 <= i < |outcomes| ==>
      outcomes[i].Fetched? && 200 <= outcomes[i].response.status <= 299 && PutAccepts(outcomes[i].response)
  }

  /** The entries a committed `addAll(urls)` writes, the response of each URL
      under its resolved key. */
  function PrecacheEntries(origin: string, urls: seq<string>, outcomes: seq<NetworkOutcome>): (m: Store)
    requires |urls| == |outcomes|
    requires forall i :: 0 <= i < |outcomes| ==> outcomes[i].Fetched?
    ensures forall i :: 0 <= i < |urls| ==> Resolve(origin, urls[i]) in m
    decreases |urls|
  {
    if urls == [] then map[]
    else
      var n := |urls| - 1;
      var earlier := PrecacheEntries(origin, urls[..n], outcomes[..n]);
      assert forall i :: 0 <= i < n ==> urls[..n][i] == urls[i] && outcomes[..n][i] == outcomes[i];
      earlier[Resolve(origin, urls[n]) := outcomes[n].response]
  }

  /** Every precached entry is the response fetched for a manifest URL with
      that key; nothing else enters the store. */
  lemma {:induction false} PrecachedFromManifest(origin: string, urls: seq<string>, outcomes: seq<NetworkOutcome>, key: string)
    requires |urls| == |outcomes|
    requires forall i :: 0 <= i < |outcomes| ==> outcomes[i].Fetched?
    requires key in PrecacheEntries(origin, urls, outcomes)
    ensures exists i ::
      && 0 <= i < |urls|
      && Resolve(origin, urls[i]) == key
      && PrecacheEntries(origin, urls, outcomes)[key] == outcomes[i].response
    decreases |urls|
  {
    var n := |urls| - 1;
    if key != Resolve(origin, urls[n]) {
      PrecachedFromManifest(origin, urls[..n], outcomes[..n], key);
      var i :|
        && 0 <= i < n
        && Resolve(origin, urls[..n][i]) == key
        && PrecacheEntries(origin, urls[..n], outcomes[..n])[key] == outcomes[..n][i].response;
      assert urls[..n][i] == urls[i] && outcomes[..n][i] == outcomes[i];
    }
  }

  /** The entry under the key of manifest URL `k` is the response fetched
      for it, unless a later URL resolves to the same key and overwrites it. */
  lemma {:induction false} PrecacheValue(origin: string, urls: seq<string>, outcomes: seq<NetworkOutcome>, k: nat)
    requires |urls| == |outcomes|
    requires forall i :: 0 <= i < |outcomes| ==> outcomes[i].Fetched?
    requires k < |urls|
    requires forall j :: k < j < |urls| ==> Resolve(origin, urls[j]) != Resolve(origin, urls[k])
    ensures Resolve(origin, urls[k]) in PrecacheEntries(origin, urls, outcomes)
    ensures PrecacheEntries(origin, urls, outcomes)[Resolve(origin, urls[k])] == outcomes[k].response
    decreases |urls|
  {
    var n := |urls| - 1;
    var key := Resolve(origin, urls[k]);
    if k < n {
      var front, fetched := urls[..n], outcomes[..n];
      assert front[k] == urls[k] && fetched[k] == outcomes[k];
      forall j | k < j < n ensures Resolve(origin, front[j]) != key {
        assert front[j] == urls[j];
      }
      PrecacheValue(origin, front, fetched, k);
      assert Resolve(origin, urls[n]) != key;
    }
  }

  /** A resolved key ends with the URL it was resolved from. */
  lemma ResolveEndsWith(origin: string, url: string)
    ensures EndsWith(Resolve(origin, url), url)
  {
    if |url| > 0 && url[0] == '/' {
      assert (origin + url)[|origin|..] == url;
    }
  }

  /** Two URLs that differ at the same distance `d` from their ends resolve
      to different keys, whatever the origin. */
  lemma KeysDiffer(origin: string, a: string, b: string, d: nat)
    requires d < |a| && d < |b| && a[|a| - 1 - d] != b[|b| - 1 - d]
    ensures Resolve(origin, a) != Resolve(origin, b)
  {
    ResolveEndsWith(origin, a);
    ResolveEndsWith(origin, b);
    DifferentEndings(Resolve(origin, a), Resolve(origin, b), a, b, d);
  }

  /** Whatever the origin, the key of manifest URL 0 differs from the keys of
      every later one; the lemmas for URLs 1 to 5 below do the same for them,
      so the seven manifest URLs resolve to seven different keys. */
  lemma CoreKeyUnique0(origin: string)
    ensures forall j :: 0 < j < |CoreAssets| ==> Resolve(origin, CoreAssets[0]) != Resolve(origin, CoreAssets[j])
  {
    CoreAssetEndings();
    KeysDiffer(origin, CoreAssets[0], CoreAssets[1], 0);
    KeysDiffer(origin, CoreAssets[0], CoreAssets[2], 0);
    KeysDiffer(origin, CoreAssets[0], CoreAssets[3], 0);
    KeysDiffer(origin, CoreAssets[0], CoreAssets[4], 0);
    KeysDiffer(origin, CoreAssets[0], CoreAssets[5], 0);
    KeysDiffer(origin, CoreAssets[0], CoreAssets[6], 0);
  }

  lemma CoreKeyUnique1(origin: string)
    ensures forall j :: 1 < j < |CoreAssets| ==> Resolve(origin, CoreAssets[1]) != Resolve(origin, CoreAssets[j])
  {
    CoreAssetEndings();
    KeysDiffer(origin, CoreAssets[1], CoreAssets[2], 0);
    KeysDiffer(origin, CoreAssets[1], CoreAssets[3], 0);
    KeysDiffer(origin, CoreAssets[1], CoreAssets[4], 0);
    KeysDiffer(origin, CoreAssets[1], CoreAssets[5], 0);
    KeysDiffer(origin, CoreAssets[1], CoreAssets[6], 0);
  }

  lemma CoreKeyUnique2(origin: string)
    ensures forall j :: 2 < j < |CoreAssets| ==> Resolve(origin, CoreAssets[2]) != Resolve(origin, CoreAssets[j])
  {
    CoreAssetEndings();
    KeysDiffer(origin, CoreAssets[2], CoreAssets[3], 0);
    KeysDiffer(origin, CoreAssets[2], CoreAssets[4], 0);
    KeysDiffer(origin, CoreAssets[2], CoreAssets[5], 0);
    KeysDiffer(origin, CoreAssets[2], CoreAssets[6], 0);
  }

  lemma CoreKeyUnique3(origin: string)
    ensures forall j :: 3 < j < |CoreAssets| ==> Resolve(origin, CoreAssets[3]) != Resolve(origin, CoreAssets[j])
  {
    CoreAssetEndings();
    KeysDiffer(origin, CoreAssets[3], CoreAssets[4], 1);
    KeysDiffer(origin, CoreAssets[3], CoreAssets[5], 4);
    KeysDiffer(origin, CoreAssets[3], CoreAssets[6], 0);
  }

  lemma CoreKeyUnique4(origin: string)
    ensures forall j :: 4 < j < |CoreAssets| ==> Resolve(origin, CoreAssets[4]) != Resolve(origin, CoreAssets[j])
  {
    CoreAssetEndings();
    KeysDiffer(origin, CoreAssets[4], CoreAssets[5], 1);
    KeysDiffer(origin, CoreAssets[4], CoreAssets[6], 0);
  }

  lemma CoreKeyUnique5(origin: string)
    ensures forall j :: 5 < j < |CoreAssets| ==> Resolve(origin, CoreAssets[5]) != Resolve(origin, CoreAssets[j])
  {
    CoreAssetEndings();
    KeysDiffer(origin, CoreAssets[5], CoreAssets[6], 0);
  }

  /** A committed precache of `CORE_ASSETS` holds, under the key of each asset,
      exactly the response fetched for that asset. */
  lemma CorePrecacheValue(origin: string, outcomes: seq<NetworkOutcome>, k: nat)
    requires |outcomes| == |CoreAssets|
    requires forall i :: 0 <= i < |outcomes| ==> outcomes[i].Fetched?
    requires k < |CoreAssets|
    ensures Resolve(origin, CoreAssets[k]) in PrecacheEntries(origin, CoreAssets, outcomes)
    ensures PrecacheEntries(origin, CoreAssets, outcomes)[Resolve(origin, CoreAssets[k])] == outcomes[k].response
  {
    if k == 0 {
      CoreKeyUnique0(origin);
    } else if k == 1 {
      CoreKeyUnique1(origin);
    } else if k == 2 {
      CoreKeyUnique2(origin);
    } else if k == 3 {
      CoreKeyUnique3(origin);
    } else if k == 4 {
      CoreKeyUnique4(origin);
    } else if k == 5 {
      CoreKeyUnique5(origin);
    }
    PrecacheValue(origin, CoreAssets, outcomes, k);
  }

  // ---------------------------------------------------------------------
  // Garbage collection
  // ---------------------------------------------------------------------

  /** The stores left, in their order, after activation tried to delete
      every store but the live one, when deleting those in `failing` fails. */
  function Survivors(names: seq<string>, failing: set<string>): seq<string>
    decreases |names|
  {
    if names == [] then []
    else
      var n := |names| - 1;
      Survivors(names[..n], failing) + (if names[n] == CacheName || names[n] in failing then [names[n]] else [])
  }

  /** A store survives exactly when it is the live store or its deletion
      failed. */
  lemma {:induction false} SurvivorsMembers(names: seq<string>, failing: set<string>)
    ensures forall n :: n in Survivors(names, failing) <==> n in names && (n == CacheName || n in failing)
    decreases |names|
  {
    if names != [] {
      var n := |names| - 1;
      SurvivorsMembers(names[..n], failing);
      assert names == names[..n] + [names[n]];
    }
  }

  /** One step of activation over the listed names `all`, at position `i`:
      the names not yet visited follow the survivors of those visited, and
      visiting `all[i]` either keeps it (it is the live store, or its
      deletion is rejected) or deletes it from the list. */
  lemma SurvivorsStep(all: seq<string>, i: nat, failing: set<string>, before: seq<string>, after: seq<string>, rejected: bool)
    requires Distinct(all) && i < |all|
    requires before == Survivors(all[..i], failing) + all[i..]
    requires rejected <==> all[i] != CacheName && all[i] in failing
    requires all[i] == CacheName || rejected ==> after == before
    requires all[i] != CacheName && !rejected ==> after == Without(before, all[i])
    ensures after == Survivors(all[..i + 1], failing) + all[i + 1..]
  {
    var name := all[i];
    var kept := Survivors(all[..i], failing);
    assert all[..i + 1][..i] == all[..i];
    assert all[i..] == [name] + all[i + 1..];
    assert before == kept + [name] + all[i + 1..];
    if name != CacheName && !rejected {
      SurvivorsMembers(all[..i], failing);
      DistinctAt(all, i);
      WithoutSplit(kept, name, all[i + 1..]);
    }
  }

  /** Whether every deletion activation attempts over `names` succeeds. */
  predicate AllDeleted(names: seq<string>, failing: set<string>)
    decreases |names|
  {
    names == [] ||
    var n := |names| - 1;
    AllDeleted(names[..n], failing) && (names[n] == CacheName || names[n] !in failing)
  }

  /** Every deletion succeeds exactly when no store but the live one is in
      `failing`. */
  lemma {:induction false} AllDeletedIff(names: seq<string>, failing: set<string>)
    ensures AllDeleted(names, failing) <==> forall n :: n in names && n != CacheName ==> n !in failing
    decreases |names|
  {
    if names != [] {
      var n := |names| - 1;
      AllDeletedIff(names[..n], failing);
      assert names == names[..n] + [names[n]];
    }
  }

  /** When every deletion succeeds, at most the live store is left. */
  lemma OnlyLiveStoreSurvives(names: seq<string>)
    ensures forall n :: n in Survivors(names, {}) ==> n == CacheName
    ensures CacheName in names ==> CacheName in Survivors(names, {})
  {
    SurvivorsMembers(names, {});
  }

  /** After a version bump, activation with no failed deletion collects the
      store of the previous generation and keeps the live one. */
  lemma VersionBumpCollects(oldVersion: string)
    requires oldVersion != CacheVersion
    ensures Survivors([CacheNameFor(oldVersion), CacheName], {}) == [CacheName]
  {
    var oldName := CacheNameFor(oldVersion);
    DistinctVersionsDistinctNames(oldVersion, CacheVersion);
    assert [oldName, CacheName][..1] == [oldName] && [oldName][..0] == [];
    assert Survivors([oldName], {}) == [];
  }
}
