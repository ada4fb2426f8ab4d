/**
 * The plugin's configuration and the two origin pools built from it, and the
 * IP-seeded choice of a bucket index valid in both pools.
 */
module CdnPools {

  /** What the plugin reads from its global and site settings on each access. */
  datatype Settings = Settings(
    enabled: bool,               // `cdn_experiment_enabled`
    cdnUrl: string,              // the default app origin (`GlobalSetting.cdn_url`)
    s3CdnUrl: string,            // the default S3 origin (`GlobalSetting.s3_cdn_url`)
    appAlternates: seq<string>,  // `cdn_experiment_app_cdns`, already split on "|"
    s3Alternates: seq<string>)   // `cdn_experiment_s3_cdns`, already split on "|"
  {
    /** Both default origins are set; `gsub` on an empty or nil pattern is not modelled. */
    predicate WellFormed() {
      |cdnUrl| > 0 && |s3CdnUrl| > 0
    }
  }

  /**
   * A seeded pseudo-random draw: `Random.new(seed).rand(0...n)`. Which generator
   * it is stays open; being a function, the same seed and bound always give the
   * same draw, and for `n > 0` the draw lies in `[0, n)`.
   */
  type SeededDraw = f: (nat, nat) -> nat | forall seed: nat, n: nat :: 0 < n ==> f(seed, n) < n
    witness (seed: nat, n: nat) => 0

  /** `app_cdn_urls`: the default app origin followed by the alternates. */
  function AppCdnUrls(s: Settings): (pool: seq<string>)
    ensures |pool| >= 1 && pool[0] == s.cdnUrl && pool[1..] == s.appAlternates
  {
    [s.cdnUrl] + s.appAlternates
  }

  /** `s3_cdn_urls`: the default S3 origin followed by the alternates. */
  function S3CdnUrls(s: Settings): (pool: seq<string>)
    ensures |pool| >= 1 && pool[0] == s.s3CdnUrl && pool[1..] == s.s3Alternates
  {
    [s.s3CdnUrl] + s.s3Alternates
  }

  /** The number of buckets: the length of the shorter pool. */
  function BucketCount(s: Settings): (n: nat)
    ensures 1 <= n
    ensures n <= |AppCdnUrls(s)| && n <= |S3CdnUrls(s)|
    ensures n == |AppCdnUrls(s)| || n == |S3CdnUrls(s)|
  {
    var a, b := |AppCdnUrls(s)|, |S3CdnUrls(s)|;
    if a <= b then a else b
  }

  /**
   * `pick_new_cdn_index`: seed the generator with the client's IP as an integer
   * and draw from `0...min(|app pool|, |s3 pool|)`, so both pool lookups are in range.
   */
  function PickNewCdnIndex(clientIp: nat, s: Settings, rand: SeededDraw): (i: nat)
    ensures i < BucketCount(s)
    ensures i < |AppCdnUrls(s)| && i < |S3CdnUrls(s)|
  {
    rand(clientIp, BucketCount(s))
  }

  /**
   * The pick depends only on the IP and the two pool lengths: settings whose
   * pools have the same lengths give the same index for the same client.
   */
  lemma PickDependsOnlyOnIpAndPoolSizes(clientIp: nat, s: Settings, t: Settings, rand: SeededDraw)
    requires |s.appAlternates| == |t.appAlternates| && |s.s3Alternates| == |t.s3Alternates|
    ensures PickNewCdnIndex(clientIp, s, rand) == PickNewCdnIndex(clientIp, t, rand)
  {
    assert BucketCount(s) == BucketCount(t);
  }
}
