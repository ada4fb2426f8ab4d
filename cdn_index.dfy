/**
 * The per-request memo of the bucket index. The Rack environment of one
 * request is an object whose entries the plugin updates in place:
 * `current_cdn_index` stores the picked index under `EnvKey` the first time
 * it is asked and returns the stored index afterwards.
 */
module CdnIndex {
  import opened CdnPools

  /** `CdnExperiment::ENV_KEY`. */
  const EnvKey: string := "discourse-cdn-experiment-cdn-index"

  /** The part of one request's Rack environment that the plugin reads and writes. */
  class RequestEnv {
    /** The client's IP address as an integer (`IPAddr.new(request.ip).to_i`). */
    const clientIp: nat
    /** Entries of the environment hash; only integer-valued ones are modelled. */
    var entries: map<string, nat>

    /** A stored index is one the plugin could have picked: in range of both pools. */
    ghost predicate Valid(s: Settings)
      reads this
    {
      EnvKey in entries ==> entries[EnvKey] < BucketCount(s)
    }

    /** The index `current_cdn_index` answers in this state: the stored one, or a fresh pick. */
    function Current(s: Settings, rand: SeededDraw): (i: nat)
      requires Valid(s)
      reads this
      ensures i < |AppCdnUrls(s)| && i < |S3CdnUrls(s)|
      ensures EnvKey in entries ==> i == entries[EnvKey]
      ensures EnvKey !in entries ==> i == PickNewCdnIndex(clientIp, s, rand)
    {
      if EnvKey in entries then entries[EnvKey] else PickNewCdnIndex(clientIp, s, rand)
    }

    /** The environment of a new request, which holds no index yet. */
    constructor (clientIp: nat, entries: map<string, nat>)
      requires EnvKey !in entries
      ensures this.clientIp == clientIp && this.entries == entries
      ensures forall s :: Valid(s)
    {
      this.clientIp := clientIp;
      this.entries := entries;
    }

    /**
     * `current_cdn_index`: `env[ENV_KEY] ||= pick_new_cdn_index(env)`. A stored
     * index is returned without a new pick and the environment is left alone;
     * otherwise the pick is stored and returned. Other entries never change.
     */
    method CurrentCdnIndex(s: Settings, rand: SeededDraw) returns (i: nat)
      requires Valid(s)
      modifies this
      ensures Valid(s)
      ensures i == old(Current(s, rand)) && i == Current(s, rand)
      ensures old(EnvKey in entries) ==> entries == old(entries)
      ensures entries == old(entries)[EnvKey := i]
    {
      if EnvKey !in entries {
        var picked := PickNewCdnIndex(clientIp, s, rand);
        entries := entries[EnvKey := picked];
      }
      i := entries[EnvKey];
    }

    /** `app_cdn_url`: the app origin of the request's bucket. */
    method AppCdnUrl(s: Settings, rand: SeededDraw) returns (url: string)
      requires Valid(s)
      modifies this
      ensures Valid(s)
      ensures url == AppCdnUrls(s)[old(Current(s, rand))]
      ensures Current(s, rand) == old(Current(s, rand))
      ensures entries == old(entries)[EnvKey := Current(s, rand)]
    {
      var i := CurrentCdnIndex(s, rand);
      url := AppCdnUrls(s)[i];
    }

    /** `s3_cdn_url`: the S3 origin of the request's bucket, the same index as `app_cdn_url`. */
    method S3CdnUrl(s: Settings, rand: SeededDraw) returns (url: string)
      requires Valid(s)
      modifies this
      ensures Valid(s)
      ensures url == S3CdnUrls(s)[old(Current(s, rand))]
      ensures Current(s, rand) == old(Current(s, rand))
      ensures entries == old(entries)[EnvKey := Current(s, rand)]
    {
      var i := CurrentCdnIndex(s, rand);
      url := S3CdnUrls(s)[i];
    }
  }

  /**
   * Within one request the app and S3 origins always come from the same
   * bucket, the one the request had before: asking for one stores the index
   * the other then reads.
   */
  method OriginPair(env: RequestEnv, s: Settings, rand: SeededDraw) returns (app: string, s3: string)
    requires env.Valid(s)
    modifies env
    ensures env.Valid(s)
    ensures EnvKey in env.entries
    ensures app == AppCdnUrls(s)[old(env.Current(s, rand))] && s3 == S3CdnUrls(s)[old(env.Current(s, rand))]
  {
    app := env.AppCdnUrl(s, rand);
    s3 := env.S3CdnUrl(s, rand);
  }
}
