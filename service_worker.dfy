/**
 * The service worker (build/debug/sw.js, compiled from src/service-worker.ts):
 * on install it fills the cache buckets of its manifest, on activate it deletes
 * every other bucket, and it answers fetches from the cache before the network.
 * The browser's cache storage is a map from bucket name to the URLs cached in it.
 */
module ServiceWorker {
  import opened Wrappers
  import opened Text

  /** One bucket of the manifest `myCache`: its name and the URLs it must hold. */
  datatype Bucket = Bucket(name: string, urls: seq<string>)

  const AppBucket := Bucket("app-v16", ["/?v=16", "/index.html?v=16", "/bundle.js?v=16", "/inference-worker.js?v=16"])
  const BootstrapBucket := Bucket("bootstrap-v1", ["/bootstrap.min.css?v=1"])
  const PhonemizeBucket := Bucket("piper-phonemize-v1", ["/piper_phonemize.js?v=1", "/piper_phonemize.wasm?v=1", "/piper_phonemize.data?v=1"])
  const OrtBucket := Bucket("ort-1.17.3", ["https://cdn.jsdelivr.net/npm/onnxruntime-web@1.17.3/dist/ort-wasm-simd-threaded.wasm"])

  /** `myCache`, in its key order (the order `for...in` visits it). */
  const Manifest: seq<Bucket> := [AppBucket, BootstrapBucket, PhonemizeBucket, OrtBucket]

  type Store = map<string, seq<string>>

  function Names(entries: seq<Bucket>): set<string> {
    set i | 0 <= i < |entries| :: entries[i].name
  }

  /** `key in myCache`. */
  predicate InManifest(key: string) {
    key in Names(Manifest)
  }

  predicate DistinctNames(entries: seq<Bucket>) {
    forall i, j :: 0 <= i < j < |entries| ==> entries[i].name != entries[j].name
  }

  lemma ManifestNamesDistinct()
    ensures DistinctNames(Manifest)
  {
  }

  /** `cache.addAll(urls)` succeeds only when every URL can be fetched. */
  predicate AllReachable(urls: seq<string>, reachable: set<string>) {
    forall u :: u in urls ==> u in reachable
  }

  // ---------------------------------------------------------------------------
  // Install: populateCache
  // ---------------------------------------------------------------------------

  datatype Outcome = Outcome(store: Store, ok: bool)

  /**
   * `populateCache` as written: a bucket that exists is skipped; a missing one is
   * opened (created empty) and then filled. A failed `addAll` rejects the whole
   * install and leaves the bucket it had just opened in place, empty.
   */
  function Populate(store: Store, entries: seq<Bucket>, reachable: set<string>): Outcome
    decreases |entries|
  {
    if entries == [] then Outcome(store, true)
    else
      var b := entries[0];
      if b.name in store then Populate(store, entries[1..], reachable)
      else if AllReachable(b.urls, reachable) then Populate(store[b.name := b.urls], entries[1..], reachable)
      else Outcome(store[b.name := []], false)
  }

  /**
   * `populateCache` as evidently intended: a bucket whose `addAll` fails is deleted
   * again, so that the next install opens and fills it afresh.
   */
  function PopulateAtomic(store: Store, entries: seq<Bucket>, reachable: set<string>): Outcome
    decreases |entries|
  {
    if entries == [] then Outcome(store, true)
    else
      var b := entries[0];
      if b.name in store then PopulateAtomic(store, entries[1..], reachable)
      else if AllReachable(b.urls, reachable) then PopulateAtomic(store[b.name := b.urls], entries[1..], reachable)
      else Outcome(store, false)
  }

  /** A bucket that existed before the install is left exactly as it was. */
  lemma {:induction false} PopulateKeepsExisting(store: Store, entries: seq<Bucket>, reachable: set<string>)
    ensures forall k :: k in store ==>
              (k in Populate(store, entries, reachable).store && Populate(store, entries, reachable).store[k] == store[k])
    ensures forall k :: k in store ==>
              (k in PopulateAtomic(store, entries, reachable).store && PopulateAtomic(store, entries, reachable).store[k] == store[k])
    decreases |entries|
  {
    if entries != [] {
      var b := entries[0];
      PopulateKeepsExisting(store, entries[1..], reachable);
      PopulateKeepsExisting(store[b.name := b.urls], entries[1..], reachable);
    }
  }

  /** A successful install leaves every bucket of the manifest in the store. */
  lemma {:induction false} PopulateCoversEntries(store: Store, entries: seq<Bucket>, reachable: set<string>)
    ensures Populate(store, entries, reachable).ok ==> Names(entries) <= Populate(store, entries, reachable).store.Keys
    ensures PopulateAtomic(store, entries, reachable).ok ==> Names(entries) <= PopulateAtomic(store, entries, reachable).store.Keys
    decreases |entries|
  {
    if entries != [] {
      var b := entries[0];
      PopulateKeepsExisting(store, entries[1..], reachable);
      PopulateKeepsExisting(store[b.name := b.urls], entries[1..], reachable);
      PopulateCoversEntries(store, entries[1..], reachable);
      PopulateCoversEntries(store[b.name := b.urls], entries[1..], reachable);
      assert Names(entries) == {b.name} + Names(entries[1..]);
    }
  }

  /**
   * Installing only adds buckets named in the manifest. A bucket the install creates
   * holds exactly its manifest list, except, as written, the one whose `addAll` failed,
   * which is left empty.
   */
  lemma {:induction false} PopulateNewBuckets(store: Store, entries: seq<Bucket>, reachable: set<string>)
    requires DistinctNames(entries)
    ensures var out := Populate(store, entries, reachable);
            && out.store.Keys <= store.Keys + Names(entries)
            && forall i :: 0 <= i < |entries| && entries[i].name !in store ==>
                 entries[i].name in out.store ==>
                   out.store[entries[i].name] == entries[i].urls || (!out.ok && out.store[entries[i].name] == [])
    decreases |entries|
  {
    if entries != [] {
      var b := entries[0];
      assert Names(entries) == {b.name} + Names(entries[1..]);
      PopulateNewBuckets(store, entries[1..], reachable);
      PopulateNewBuckets(store[b.name := b.urls], entries[1..], reachable);
      PopulateKeepsExisting(store[b.name := b.urls], entries[1..], reachable);
      forall i | 1 <= i < |entries| ensures entries[i] == entries[1..][i - 1] { }
    }
  }

  /** Every manifest bucket present holds its manifest list. */
  ghost predicate BucketsMatchManifest(store: Store, entries: seq<Bucket>) {
    forall i :: 0 <= i < |entries| && entries[i].name in store ==> store[entries[i].name] == entries[i].urls
  }

  /**
   * The corrected install keeps the store consistent whether it succeeds or not, adds
   * only manifest buckets, and on success every manifest bucket holds its list.
   */
  lemma {:induction false} PopulateAtomicConsistent(store: Store, entries: seq<Bucket>, reachable: set<string>)
    requires DistinctNames(entries) && BucketsMatchManifest(store, entries)
    ensures var out := PopulateAtomic(store, entries, reachable);
            && BucketsMatchManifest(out.store, entries)
            && out.store.Keys <= store.Keys + Names(entries)
            && (out.ok ==> forall i :: 0 <= i < |entries| ==> entries[i].name in out.store)
    decreases |entries|
  {
    if entries != [] {
      var b := entries[0];
      assert Names(entries) == {b.name} + Names(entries[1..]);
      forall i | 1 <= i < |entries| ensures entries[i] == entries[1..][i - 1] { }
      var next := if b.name in store then store else if AllReachable(b.urls, reachable) then store[b.name := b.urls] else store;
      if b.name in store || AllReachable(b.urls, reachable) {
        PopulateAtomicConsistent(next, entries[1..], reachable);
        PopulateKeepsExisting(next, entries[1..], reachable);
      }
    }
  }

  /** Both installs succeed when every URL of every bucket can be fetched. */
  lemma {:induction false} PopulateSucceedsWhenReachable(store: Store, entries: seq<Bucket>, reachable: set<string>)
    requires forall i :: 0 <= i < |entries| ==> AllReachable(entries[i].urls, reachable)
    ensures Populate(store, entries, reachable).ok
    ensures PopulateAtomic(store, entries, reachable).ok
    decreases |entries|
  {
    if entries != [] {
      var b := entries[0];
      assert AllReachable(b.urls, reachable);
      forall i | 0 <= i < |entries[1..]| ensures AllReachable(entries[1..][i].urls, reachable) {
        assert entries[1..][i] == entries[i + 1];
      }
      PopulateSucceedsWhenReachable(store, entries[1..], reachable);
      PopulateSucceedsWhenReachable(store[b.name := b.urls], entries[1..], reachable);
    }
  }

  /** Every URL the manifest lists. */
  function ManifestUrls(): set<string> {
    set i, u | 0 <= i < |Manifest| && u in Manifest[i].urls :: u
  }

  /**
   * As written: an install that runs while `/?v=16` cannot be fetched fails and leaves
   * `app-v16` behind, empty; the next install, with every URL reachable, succeeds
   * but skips that bucket, so the application shell is never cached.
   */
  lemma InterruptedInstallStrandsAppBucket()
    ensures var first := Populate(map[], Manifest, {});
            var retry := Populate(first.store, Manifest, ManifestUrls());
            && !first.ok && first.store == map[AppBucket.name := []]
            && retry.ok && AppBucket.name in retry.store && retry.store[AppBucket.name] == [] != AppBucket.urls
  {
    var first := Populate(map[], Manifest, {});
    assert "/?v=16" in AppBucket.urls;
    assert !AllReachable(AppBucket.urls, {});
    PopulateSucceedsWhenReachable(first.store, Manifest, ManifestUrls());
    PopulateKeepsExisting(first.store, Manifest, ManifestUrls());
  }

  /**
   * Corrected: the failed install leaves nothing behind, and the retry fills every
   * manifest bucket with exactly its list.
   */
  lemma InterruptedInstallRecovers()
    ensures var first := PopulateAtomic(map[], Manifest, {});
            var retry := PopulateAtomic(first.store, Manifest, ManifestUrls());
            && !first.ok && first.store == map[]
            && retry.ok
            && forall i :: 0 <= i < |Manifest| ==> Manifest[i].name in retry.store && retry.store[Manifest[i].name] == Manifest[i].urls
  {
    var first := PopulateAtomic(map[], Manifest, {});
    assert "/?v=16" in AppBucket.urls;
    assert !AllReachable(AppBucket.urls, {});
    ManifestNamesDistinct();
    PopulateSucceedsWhenReachable(first.store, Manifest, ManifestUrls());
    PopulateAtomicConsistent(first.store, Manifest, ManifestUrls());
  }

  // ---------------------------------------------------------------------------
  // Activate: removeOldCaches
  // ---------------------------------------------------------------------------

  /** `removeOldCaches` as written keeps a bucket when `key in myCache`, inherited names included. */
  function PruneAsWritten(store: Store): (r: Store)
    ensures r.Keys == store.Keys * (Names(Manifest) + PrototypeKeys)
    ensures forall k :: k in r ==> r[k] == store[k]
  {
    map k | k in store && JsIn(k, Names(Manifest)) :: store[k]
  }

  /** As written, a stale bucket named `toString` survives activation; corrected, it is deleted. */
  lemma PrototypeNamedBucketSurvives()
    ensures var store := map["toString" := ["/old.js"]];
            PruneAsWritten(store) == store && Prune(store) == map[]
  {
    var store := map["toString" := ["/old.js"]];
    forall i | 0 <= i < |Manifest|
      ensures Manifest[i].name != "toString"
    {
      assert Manifest[i] in {AppBucket, BootstrapBucket, PhonemizeBucket, OrtBucket};
    }
    assert Prune(store).Keys == {};
  }

  /** What `removeOldCaches` leaves, as intended: the buckets the manifest itself names, untouched. */
  function Prune(store: Store): (r: Store)
    ensures r.Keys == store.Keys * Names(Manifest)
    ensures forall k :: k in r ==> r[k] == store[k]
  {
    map k | k in store && InManifest(k) :: store[k]
  }

  /** A successful corrected install followed by activation leaves exactly the manifest's bucket names. */
  lemma InstallThenActivateNames(store: Store, reachable: set<string>)
    requires PopulateAtomic(store, Manifest, reachable).ok
    ensures Prune(PopulateAtomic(store, Manifest, reachable).store).Keys == Names(Manifest)
  {
    PopulateCoversEntries(store, Manifest, reachable);
  }

  /**
   * A successful corrected install followed by activation leaves exactly the manifest's
   * buckets, each holding exactly its manifest list, provided the store held no
   * stale contents under a manifest name.
   */
  lemma InstallThenActivate(store: Store, reachable: set<string>)
    requires BucketsMatchManifest(store, Manifest)
    requires PopulateAtomic(store, Manifest, reachable).ok
    ensures var after := Prune(PopulateAtomic(store, Manifest, reachable).store);
            && after.Keys == Names(Manifest)
            && forall i :: 0 <= i < |Manifest| ==> after[Manifest[i].name] == Manifest[i].urls
  {
    ManifestNamesDistinct();
    PopulateAtomicConsistent(store, Manifest, reachable);
  }

  /**
   * As written, a successful install followed by activation keeps every manifest
   * bucket, and besides them only the buckets the store already held under a name
   * `Object.prototype` supplies.
   */
  lemma InstallThenActivateAsWritten(store: Store, reachable: set<string>)
    requires Populate(store, Manifest, reachable).ok
    ensures var after := PruneAsWritten(Populate(store, Manifest, reachable).store);
            Names(Manifest) <= after.Keys <= Names(Manifest) + (store.Keys * PrototypeKeys)
  {
    ManifestNamesDistinct();
    PopulateCoversEntries(store, Manifest, reachable);
    PopulateNewBuckets(store, Manifest, reachable);
  }

  // ---------------------------------------------------------------------------
  // Fetch: handleFetch
  // ---------------------------------------------------------------------------

  /** The index of the first `?` at or after `i`, or the length when there is none. */
  function MarkFrom(url: string, i: nat): (n: nat)
    requires i <= |url|
    ensures i <= n <= |url|
    ensures forall j :: i <= j < n ==> url[j] != '?'
    ensures n < |url| ==> url[n] == '?'
    decreases |url| - i
  {
    if i == |url| || url[i] == '?' then i else MarkFrom(url, i + 1)
  }

  /** The URL without its query string. */
  function StripSearch(url: string): string {
    url[..MarkFrom(url, 0)]
  }

  /** The query string after the first `?`, if there is one. */
  function QueryOf(url: string): Option<string> {
    var n := MarkFrom(url, 0);
    if n < |url| then Some(url[n + 1..]) else None
  }

  /** `caches.match(request, {ignoreSearch: true})` has a hit in `bucket`. */
  predicate MatchesIgnoringSearch(cached: string, request: string) {
    StripSearch(cached) == StripSearch(request)
  }

  ghost predicate HasMatch(store: Store, request: string) {
    exists k, i :: k in store && 0 <= i < |store[k]| && MatchesIgnoringSearch(store[k][i], request)
  }

  datatype Response = FromCache(url: string) | FromNetwork(url: string)

  /**
   * `handleFetch`: the first cached entry whose URL matches the request once query
   * strings are ignored, searching bucket by bucket; the network only on a miss.
   */
  method HandleFetch(store: Store, request: string) returns (r: Response)
    ensures r.FromCache? ==>
              && MatchesIgnoringSearch(r.url, request)
              && exists k :: k in store && r.url in store[k]
    ensures r.FromNetwork? <==> !HasMatch(store, request)
    ensures r.FromNetwork? ==> r.url == request
  {
    var unsearched := store.Keys;
    while unsearched != {}
      invariant unsearched <= store.Keys
      invariant forall k, i :: k in store && k !in unsearched && 0 <= i < |store[k]| ==>
                  !MatchesIgnoringSearch(store[k][i], request)
      decreases unsearched
    {
      var k :| k in unsearched;
      var entries := store[k];
      var i := 0;
      while i < |entries|
        invariant 0 <= i <= |entries|
        invariant forall j :: 0 <= j < i ==> !MatchesIgnoringSearch(entries[j], request)
      {
        if MatchesIgnoringSearch(entries[i], request) {
          return FromCache(entries[i]);
        }
        i := i + 1;
      }
      unsearched := unsearched - {k};
    }
    r := FromNetwork(request);
  }

  // ---------------------------------------------------------------------------
  // The manifest's versions
  // ---------------------------------------------------------------------------

  /** The index of the last `-` before `n`, or -1 when there is none. */
  function DashBefore(name: string, n: nat): (d: int)
    requires n <= |name|
    ensures -1 <= d < n
    ensures d >= 0 ==> name[d] == '-'
    ensures forall j :: d < j < n ==> name[j] != '-'
  {
    if n == 0 then -1 else if name[n - 1] == '-' then n - 1 else DashBefore(name, n - 1)
  }

  /** The version in a bucket name ending `-v<version>`: what follows the last `-` and a `v`. */
  function VersionOf(name: string): Option<string> {
    var d := DashBefore(name, |name|);
    if 0 <= d && d + 1 < |name| && name[d + 1] == 'v' then Some(name[d + 2..]) else None
  }

  /**
   * Every URL of a versioned bucket carries the query `v=<version>`, so that a new
   * bucket is never filled from an older HTTP cache entry.
   */
  predicate QueriesMatchVersion(b: Bucket) {
    VersionOf(b.name).Some? ==> forall u :: u in b.urls ==> QueryOf(u) == Some("v=" + VersionOf(b.name).value)
  }

  lemma ManifestQueriesMatchVersions()
    ensures forall i :: 0 <= i < |Manifest| ==> QueriesMatchVersion(Manifest[i])
  {
    AppQueriesMatchVersion();
    BootstrapQueriesMatchVersion();
    PhonemizeQueriesMatchVersion();
    OrtUnversioned();
  }

  /** URLs built as `<path>?<query>` from paths without a `?` all carry that query. */
  lemma QueriesAfterMarks(urls: seq<string>, paths: seq<string>, query: string)
    requires |urls| == |paths|
    requires forall i :: 0 <= i < |urls| ==> urls[i] == paths[i] + "?" + query && '?' !in paths[i]
    ensures forall u :: u in urls ==> QueryOf(u) == Some(query)
  {
    forall u | u in urls
      ensures QueryOf(u) == Some(query)
    {
      var i :| 0 <= i < |urls| && urls[i] == u;
      QueryAfterMark(u, paths[i], query);
    }
  }

  lemma AppQueriesMatchVersion()
    ensures QueriesMatchVersion(AppBucket)
  {
    VersionAfterDash("app-v16", "app", "16");
    assert "v=" + "16" == "v=16";
    QueriesAfterMarks(AppBucket.urls, ["/", "/index.html", "/bundle.js", "/inference-worker.js"], "v=16");
  }

  lemma BootstrapQueriesMatchVersion()
    ensures QueriesMatchVersion(BootstrapBucket)
  {
    VersionAfterDash("bootstrap-v1", "bootstrap", "1");
    assert "v=" + "1" == "v=1";
    QueriesAfterMarks(BootstrapBucket.urls, ["/bootstrap.min.css"], "v=1");
  }

  lemma PhonemizeQueriesMatchVersion()
    ensures QueriesMatchVersion(PhonemizeBucket)
  {
    VersionAfterDash("piper-phonemize-v1", "piper-phonemize", "1");
    assert "v=" + "1" == "v=1";
    QueriesAfterMarks(PhonemizeBucket.urls, ["/piper_phonemize.js", "/piper_phonemize.wasm", "/piper_phonemize.data"], "v=1");
  }

  lemma OrtUnversioned()
    ensures VersionOf(OrtBucket.name) == None
  {
    UnversionedAfterDash("ort-1.17.3", "ort", "1.17.3");
  }

  /** The query of `<path>?<query>`, when the path has no `?` of its own. */
  lemma QueryAfterMark(url: string, path: string, query: string)
    requires url == path + "?" + query && '?' !in path
    ensures StripSearch(url) == path
    ensures QueryOf(url) == Some(query)
  {
    var n := MarkFrom(url, 0);
    assert url[|path|] == '?';
    assert forall j :: 0 <= j < |path| ==> url[j] == path[j];
    assert n == |path|;
    assert url[n + 1..] == query;
  }

  /** The version of `<base>-v<version>`, when the version has no `-`. */
  lemma VersionAfterDash(name: string, base: string, version: string)
    requires name == base + "-v" + version && '-' !in version
    ensures VersionOf(name) == Some(version)
  {
    var d := DashBefore(name, |name|);
    var at := |base|;
    assert name[at] == '-' && name[at + 1] == 'v';
    assert forall j :: at + 2 <= j < |name| ==> name[j] == version[j - at - 2];
    assert d == at;
    assert name[d + 2..] == version;
  }

  /** `<base>-<tail>` has no version when its tail has no `-` and does not begin with `v`. */
  lemma UnversionedAfterDash(name: string, base: string, tail: string)
    requires name == base + "-" + tail && '-' !in tail && tail != [] && tail[0] != 'v'
    ensures VersionOf(name) == None
  {
    var d := DashBefore(name, |name|);
    var at := |base|;
    assert name[at] == '-';
    assert forall j :: at + 1 <= j < |name| ==> name[j] == tail[j - at - 1];
    assert d == at && name[d + 1] == tail[0];
  }

  // ---------------------------------------------------------------------------
  // The browser cache storage, updated in place by the two event handlers
  // ---------------------------------------------------------------------------

  class CacheStorage {
    var buckets: Store

    constructor (buckets: Store)
      ensures this.buckets == buckets
    {
      this.buckets := buckets;
    }

    /** `caches.has(key)`. */
    method Has(key: string) returns (b: bool)
      ensures b <==> key in buckets
    {
      b := key in buckets;
    }

    /** `caches.open(key)`: creates the bucket, empty, when it is missing. */
    method Open(key: string)
      modifies this
      ensures buckets == if key in old(buckets) then old(buckets) else old(buckets)[key := []]
    {
      if key !in buckets {
        buckets := buckets[key := []];
      }
    }

    /** `cache.addAll(urls)` on an empty bucket: all of them, or none when one cannot be fetched. */
    method AddAll(key: string, urls: seq<string>, reachable: set<string>) returns (ok: bool)
      requires key in buckets && buckets[key] == []
      modifies this
      ensures ok == AllReachable(urls, reachable)
      ensures buckets == if ok then old(buckets)[key := urls] else old(buckets)
    {
      ok := forall u | u in urls :: u in reachable;
      if ok {
        buckets := buckets[key := urls];
      }
    }

    /** `caches.delete(key)`. */
    method Delete(key: string)
      modifies this
      ensures buckets == old(buckets) - {key}
    {
      buckets := buckets - {key};
    }
  }

  /**
   * The install handler as written: `populateCache()` over the buckets of `manifest`
   * (the worker passes `Manifest`); `ok` is whether its promise resolves.
   */
  method PopulateCache(caches: CacheStorage, manifest: seq<Bucket>, reachable: set<string>) returns (ok: bool)
    modifies caches
    ensures caches.buckets == Populate(old(caches.buckets), manifest, reachable).store
    ensures ok == Populate(old(caches.buckets), manifest, reachable).ok
  {
    var i := 0;
    while i < |manifest|
      invariant 0 <= i <= |manifest|
      invariant Populate(caches.buckets, manifest[i..], reachable) == Populate(old(caches.buckets), manifest, reachable)
    {
      var b := manifest[i];
      assert manifest[i..][1..] == manifest[i + 1..];
      var present := caches.Has(b.name);
      if !present {
        ghost var before := caches.buckets;
        caches.Open(b.name);
        var added := caches.AddAll(b.name, b.urls, reachable);
        if !added {
          return false;
        }
        assert caches.buckets == before[b.name := b.urls];
      }
      i := i + 1;
    }
    ok := true;
  }

  /** The install handler corrected: a bucket whose `addAll` fails is deleted again. */
  method PopulateCacheAtomic(caches: CacheStorage, manifest: seq<Bucket>, reachable: set<string>) returns (ok: bool)
    modifies caches
    ensures caches.buckets == PopulateAtomic(old(caches.buckets), manifest, reachable).store
    ensures ok == PopulateAtomic(old(caches.buckets), manifest, reachable).ok
  {
    var i := 0;
    while i < |manifest|
      invariant 0 <= i <= |manifest|
      invariant PopulateAtomic(caches.buckets, manifest[i..], reachable) == PopulateAtomic(old(caches.buckets), manifest, reachable)
    {
      var b := manifest[i];
      assert manifest[i..][1..] == manifest[i + 1..];
      var present := caches.Has(b.name);
      if !present {
        ghost var before := caches.buckets;
        caches.Open(b.name);
        var added := caches.AddAll(b.name, b.urls, reachable);
        if !added {
          caches.Delete(b.name);
          assert caches.buckets == before;
          return false;
        }
        assert caches.buckets == before[b.name := b.urls];
      }
      i := i + 1;
    }
    ok := true;
  }

  /**
   * The activate handler as written: `removeOldCaches()` deletes each bucket for which
   * `key in myCache` is false, so a bucket under an `Object.prototype` name stays.
   */
  method RemoveOldCachesAsWritten(caches: CacheStorage)
    modifies caches
    ensures caches.buckets == PruneAsWritten(old(caches.buckets))
  {
    var keys := caches.buckets.Keys;
    while keys != {}
      invariant keys <= old(caches.buckets).Keys
      invariant caches.buckets == map k | k in old(caches.buckets) && (k in keys || JsIn(k, Names(Manifest))) :: old(caches.buckets)[k]
      decreases keys
    {
      var key :| key in keys;
      if !JsIn(key, Names(Manifest)) {
        caches.Delete(key);
      }
      keys := keys - {key};
    }
  }

  /**
   * The activate handler corrected: every bucket the manifest itself does not name is
   * deleted, whatever its name.
   */
  method RemoveOldCaches(caches: CacheStorage)
    modifies caches
    ensures caches.buckets == Prune(old(caches.buckets))
  {
    var keys := caches.buckets.Keys;
    while keys != {}
      invariant keys <= old(caches.buckets).Keys
      invariant caches.buckets == map k | k in old(caches.buckets) && (k in keys || InManifest(k)) :: old(caches.buckets)[k]
      decreases keys
    {
      var key :| key in keys;
      if !InManifest(key) {
        caches.Delete(key);
      }
      keys := keys - {key};
    }
  }

  /** The corrected install handler followed by the corrected activate handler, on one cache storage. */
  method InstallAndActivate(caches: CacheStorage, reachable: set<string>) returns (ok: bool)
    requires BucketsMatchManifest(caches.buckets, Manifest)
    modifies caches
    ensures ok ==> caches.buckets.Keys == Names(Manifest)
    ensures ok ==> forall i :: 0 <= i < |Manifest| ==> caches.buckets[Manifest[i].name] == Manifest[i].urls
  {
    ghost var before := caches.buckets;
    ok := PopulateCacheAtomic(caches, Manifest, reachable);
    if ok {
      InstallThenActivate(before, reachable);
      RemoveOldCaches(caches);
    }
  }
}
