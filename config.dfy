/** The worker's fixed configuration: the cache generation, the name of the
    live store derived from it, the precache manifest and the constants the
    router compares against. */
module Config {
  import opened Strings

  /** The generation identifier; bumping it is the only way to invalidate
      every cached entry. */
  const CacheVersion: string := "v1.0.1"

  const CacheNamePrefix: string := "yt-weather-"

  /** The name of the store belonging to generation `version`. The version
      can be read back from the name, so two generations never share a
      store. */
  function CacheNameFor(version: string): (name: string)
    ensures StartsWith(name, CacheNamePrefix)
    ensures name[|CacheNamePrefix|..] == version
  {
    CacheNamePrefix + version
  }

  /** The live store. */
  const CacheName: string := CacheNameFor(CacheVersion)

  lemma CacheNameValue()
    ensures CacheName == "yt-weather-v1.0.1"
  {
  }

  /** Distinct generations name distinct stores, so garbage collection after
      a version bump can tell the old store from the new one. */
  lemma DistinctVersionsDistinctNames(v1: string, v2: string)
    requires v1 != v2
    ensures CacheNameFor(v1) != CacheNameFor(v2)
  {
    var n1, n2 := CacheNameFor(v1), CacheNameFor(v2);
    assert n1[|CacheNamePrefix|..] != n2[|CacheNamePrefix|..];
  }

  /** The precache manifest, in the order it is handed to `addAll`. */
  const CoreAssets: seq<string> := [
    "/",
    "/index.html",
    "/manifest.json",
    "/style.css",
    "/app.js",
    "https://cdnjs.cloudflare.com/ajax/libs/font-awesome/6.4.0/css/all.min.css",
    "https://fonts.googleapis.com/css2?family=Poppins:wght@300;400;500;600;700&family=Noto+Sans+SC:wght@300;400;500;700&display=swap"
  ]

  /** The characters, counted from the end, that tell the manifest URLs
      apart: no manifest URL ends with another one. */
  lemma CoreAssetEndings()
    ensures |CoreAssets[0]| >= 1
    ensures |CoreAssets[1]| >= 1
    ensures |CoreAssets[2]| >= 1
    ensures |CoreAssets[3]| >= 5
    ensures |CoreAssets[4]| >= 2
    ensures |CoreAssets[5]| >= 5
    ensures |CoreAssets[6]| >= 1
    ensures CoreAssets[0][|CoreAssets[0]| - 1] == '/'
    ensures CoreAssets[1][|CoreAssets[1]| - 1] == 'l'
    ensures CoreAssets[2][|CoreAssets[2]| - 1] == 'n'
    ensures CoreAssets[3][|CoreAssets[3]| - 1] == 's'
    ensures CoreAssets[3][|CoreAssets[3]| - 2] == 's'
    ensures CoreAssets[3][|CoreAssets[3]| - 5] == 'e'
    ensures CoreAssets[4][|CoreAssets[4]| - 1] == 's'
    ensures CoreAssets[4][|CoreAssets[4]| - 2] == 'j'
    ensures CoreAssets[5][|CoreAssets[5]| - 1] == 's'
    ensures CoreAssets[5][|CoreAssets[5]| - 2] == 's'
    ensures CoreAssets[5][|CoreAssets[5]| - 5] == 'n'
    ensures CoreAssets[6][|CoreAssets[6]| - 1] == 'p'
  {
  }

  /** Requests whose URL contains this host are weather data. */
  const ApiHost: string := "api.caiyunapp.com"

  /** Requests whose URL starts with this scheme are never intercepted. */
  const ExtensionScheme: string := "chrome-extension://"

  /** The only HTTP method the router intercepts. */
  const InterceptedMethod: string := "GET"

  /** The text the offline reply's message starts with, before the timestamp. */
  const OfflineNotice: string := "您当前处于离线状态。上次更新："

  /** The message `type` that asks a waiting worker to activate at once. */
  const SkipWaitingCommand: string := "SKIP_WAITING"
}
