/**
 * `perform_gsub`: rewrite every default app and S3 origin in a produced value
 * to the origins of the request's bucket. Strings are rewritten and keep their
 * html-safe flag, hashes are rewritten value by value, and anything else
 * (numbers, arrays, nil, ...) passes through untouched.
 */
module Rewriter {
  import opened Gsub
  import opened CdnPools
  import opened CdnIndex

  /** A value a wrapped helper can return. */
  datatype Value =
    | Text(s: string, htmlSafe: bool)           // a String, possibly html_safe
    | Dict(entries: seq<(string, Value)>)       // a Hash, in insertion order
    | Opaque(id: int)                           // any other object

  /** The value holds a string somewhere, so rewriting it asks for the bucket index. */
  predicate HasText(v: Value) {
    match v
    case Text(_, _) => true
    case Dict(es) => exists j :: 0 <= j < |es| && HasText(es[j].1)
    case Opaque(_) => false
  }

  /** Some string in the value mentions one of the default origins. */
  predicate MentionsOrigin(v: Value, s: Settings) {
    match v
    case Text(str, _) => Contains(str, s.cdnUrl) || Contains(str, s.s3CdnUrl)
    case Dict(es) => exists j :: 0 <= j < |es| && MentionsOrigin(es[j].1, s)
    case Opaque(_) => false
  }

  /**
   * The two `gsub` calls on one string, for bucket `i`: app origin first, then
   * S3. The control bucket 0 leaves the string as it is.
   */
  function RewriteText(str: string, s: Settings, i: nat): (r: string)
    requires s.WellFormed() && i < BucketCount(s)
    ensures i == 0 ==> r == str
  {
    ReplaceAll(ReplaceAll(str, s.cdnUrl, AppCdnUrls(s)[i]), s.s3CdnUrl, S3CdnUrls(s)[i])
  }

  /**
   * The value `perform_gsub` returns when the request's bucket is `i`. It has
   * the shape of `v` (a string stays a string with the same html-safe flag, a
   * hash keeps its keys in order, anything else is kept as is), and the control
   * bucket 0 gives `v` back.
   */
  function RewriteValue(v: Value, s: Settings, i: nat): (r: Value)
    requires s.WellFormed() && i < BucketCount(s)
    ensures SameShape(v, r)
    ensures i == 0 ==> r == v
    decreases v
  {
    match v
    case Text(str, safe) => Text(RewriteText(str, s, i), safe)
    case Dict(es) =>
      var out := seq(|es|, j requires 0 <= j < |es| => (es[j].0, RewriteValue(es[j].1, s, i)));
      assert i == 0 ==> out == es;
      Dict(out)
    case Opaque(_) => v
  }

  /**
   * `w` has the shape of `v`: a string with the same html-safe flag, a hash
   * with the same keys in the same order and values of the same shape, or the
   * very same other object.
   */
  predicate SameShape(v: Value, w: Value)
    decreases v
  {
    match v
    case Text(_, safe) => w.Text? && w.htmlSafe == safe
    case Dict(es) =>
      && w.Dict? && |w.entries| == |es|
      && forall j :: 0 <= j < |es| ==> w.entries[j].0 == es[j].0 && SameShape(es[j].1, w.entries[j].1)
    case Opaque(_) => w == v
  }

  /** A value none of whose strings mentions a default origin comes back unchanged. */
  lemma {:induction false} RewriteWithoutOrigins(v: Value, s: Settings, i: nat)
    requires s.WellFormed() && i < BucketCount(s) && !MentionsOrigin(v, s)
    ensures RewriteValue(v, s, i) == v
    decreases v
  {
    match v
    case Text(str, _) =>
      ReplaceAllWithoutMatch(str, s.cdnUrl, AppCdnUrls(s)[i]);
      ReplaceAllWithoutMatch(str, s.s3CdnUrl, S3CdnUrls(s)[i]);
    case Dict(es) =>
      forall j | 0 <= j < |es|
        ensures RewriteValue(es[j].1, s, i) == es[j].1
      {
        RewriteWithoutOrigins(es[j].1, s, i);
      }
      assert RewriteValue(v, s, i).entries == es;
    case Opaque(_) =>
  }

  /**
   * A string that mentions the default app origin mentions the bucket's app
   * origin afterwards, as long as the S3 pass does not touch it.
   */
  lemma RewriteTextUsesBucketOrigin(str: string, s: Settings, i: nat)
    requires s.WellFormed() && i < BucketCount(s)
    requires Contains(str, s.cdnUrl)
    requires !Contains(ReplaceAll(str, s.cdnUrl, AppCdnUrls(s)[i]), s.s3CdnUrl)
    ensures Contains(RewriteText(str, s, i), AppCdnUrls(s)[i])
  {
    var once := ReplaceAll(str, s.cdnUrl, AppCdnUrls(s)[i]);
    ReplaceAllIntroduces(str, s.cdnUrl, AppCdnUrls(s)[i]);
    ReplaceAllWithoutMatch(once, s.s3CdnUrl, S3CdnUrls(s)[i]);
  }

  /**
   * A worked case: with bucket 1 of pools `[a, b]`, a setup hash whose "cdn"
   * value is the default app origin gets the alternate origin there, and its
   * number entry is left alone.
   */
  lemma SetupDataExample()
    ensures
      var s := Settings(true, "https://a.example.com", "https://s3-assets.example.com",
                        ["https://b.example.com"], ["https://s3-b.example.com"]);
      RewriteValue(Dict([("cdn", Text("https://a.example.com", false)), ("other", Opaque(42))]), s, 1)
      == Dict([("cdn", Text("https://b.example.com", false)), ("other", Opaque(42))])
  {
    var s := Settings(true, "https://a.example.com", "https://s3-assets.example.com",
                      ["https://b.example.com"], ["https://s3-b.example.com"]);
    assert AppCdnUrls(s)[1] == "https://b.example.com";
    assert ReplaceAll("https://a.example.com", s.cdnUrl, "https://b.example.com") == "https://b.example.com";
    assert ReplaceAll("https://b.example.com", s.s3CdnUrl, S3CdnUrls(s)[1]) == "https://b.example.com";
  }

  /**
   * `perform_gsub(value, env)`. Each string asks `app_cdn_url` and then
   * `s3_cdn_url`, so the first string of the value stores the bucket index in
   * the environment; a value without strings leaves the environment alone.
   * Every string is rewritten with one and the same bucket.
   */
  method PerformGsub(v: Value, env: RequestEnv, s: Settings, rand: SeededDraw) returns (r: Value)
    requires s.WellFormed() && env.Valid(s)
    modifies env
    ensures env.Valid(s)
    ensures env.Current(s, rand) == old(env.Current(s, rand))
    ensures r == RewriteValue(v, s, env.Current(s, rand))
    ensures env.entries == if HasText(v) then old(env.entries)[EnvKey := env.Current(s, rand)] else old(env.entries)
    decreases v, 1
  {
    match v
    case Text(str, safe) =>
      r := GsubText(str, safe, env, s, rand);
    case Dict(es) =>
      var out := GsubHash(es, env, s, rand);
      r := Dict(out);
    case Opaque(_) =>
      r := v;
  }

  /** The string branch: both origins replaced, the html-safe flag put back. */
  method GsubText(str: string, safe: bool, env: RequestEnv, s: Settings, rand: SeededDraw) returns (r: Value)
    requires s.WellFormed() && env.Valid(s)
    modifies env
    ensures env.Valid(s)
    ensures env.Current(s, rand) == old(env.Current(s, rand))
    ensures r == Text(RewriteText(str, s, env.Current(s, rand)), safe)
    ensures env.entries == old(env.entries)[EnvKey := env.Current(s, rand)]
  {
    var app := env.AppCdnUrl(s, rand);
    var rewritten := ReplaceAll(str, s.cdnUrl, app);
    var s3 := env.S3CdnUrl(s, rand);
    rewritten := ReplaceAll(rewritten, s.s3CdnUrl, s3);
    r := Text(rewritten, safe);
  }

  /** The hash branch: `transform_values`, one value at a time, keys kept. */
  method GsubHash(es: seq<(string, Value)>, env: RequestEnv, s: Settings, rand: SeededDraw)
    returns (out: seq<(string, Value)>)
    requires s.WellFormed() && env.Valid(s)
    modifies env
    ensures env.Valid(s)
    ensures env.Current(s, rand) == old(env.Current(s, rand))
    ensures out == RewriteValue(Dict(es), s, env.Current(s, rand)).entries
    ensures env.entries ==
      if HasText(Dict(es)) then old(env.entries)[EnvKey := env.Current(s, rand)] else old(env.entries)
    decreases Dict(es), 0
  {
    ghost var bucket := env.Current(s, rand);
    ghost var memoised := old(env.entries)[EnvKey := bucket];
    out := [];
    for j := 0 to |es|
      invariant env.Valid(s) && env.Current(s, rand) == bucket
      invariant env.entries == if exists k :: 0 <= k < j && HasText(es[k].1) then memoised else old(env.entries)
      invariant |out| == j
      invariant forall k :: 0 <= k < j ==> out[k] == (es[k].0, RewriteValue(es[k].1, s, bucket))
    {
      var w := PerformGsub(es[j].1, env, s, rand);
      out := out + [(es[j].0, w)];
    }
  }
}
