/**
 * The wrappers put around nine view helpers. Each wrapper calls the original
 * helper and, when the experiment is on, passes its result through
 * `perform_gsub` with the request's environment; when it is off the result is
 * returned as it is. The original helper is not modelled: its result is a
 * parameter.
 */
module ApplicationHelper {
  import opened CdnPools
  import opened CdnIndex
  import opened Rewriter

  /** The helpers that get the wrapper; each one is decorated the same way. */
  const WrappedHelpers: seq<string> := [
    "script_asset_path",
    "discourse_stylesheet_preload_tag",
    "discourse_stylesheet_link_tag",
    "theme_lookup",
    "theme_translations_lookup",
    "theme_js_lookup",
    "discourse_preload_color_scheme_stylesheets",
    "discourse_color_scheme_stylesheets",
    "client_side_setup_data"
  ]

  /**
   * What each helper in `WrappedHelpers` returns for the original `result`
   * when the request's bucket is `i`. Switched on, the wrapper keeps the shape
   * and html-safe flags of the result; switched off, and in the control
   * bucket 0, the result comes back unchanged.
   */
  function Decoration(result: Value, s: Settings, i: nat): (r: Value)
    requires s.WellFormed() && i < BucketCount(s)
    ensures s.enabled ==> SameShape(result, r)
    ensures !s.enabled || i == 0 ==> r == result
  {
    if !s.enabled then result else RewriteValue(result, s, i)
  }

  /** A result none of whose strings mentions a default origin is not decorated at all. */
  lemma DecorationWithoutOrigins(result: Value, s: Settings, i: nat)
    requires s.WellFormed() && i < BucketCount(s) && !MentionsOrigin(result, s)
    ensures Decoration(result, s, i) == result
  {
    if s.enabled {
      RewriteWithoutOrigins(result, s, i);
    }
  }

  /**
   * One call of a wrapped helper whose original returned `result`. The enabled
   * flag is checked first: switched off, neither the result nor the
   * environment changes.
   */
  method Decorated(result: Value, env: RequestEnv, s: Settings, rand: SeededDraw) returns (r: Value)
    requires s.WellFormed() && env.Valid(s)
    modifies env
    ensures env.Valid(s)
    ensures env.Current(s, rand) == old(env.Current(s, rand))
    ensures r == Decoration(result, s, env.Current(s, rand))
    ensures !s.enabled ==> env.entries == old(env.entries)
    ensures s.enabled && HasText(result) ==> env.entries == old(env.entries)[EnvKey := env.Current(s, rand)]
    ensures s.enabled && !HasText(result) ==> env.entries == old(env.entries)
  {
    if !s.enabled {
      return result;
    }
    r := PerformGsub(result, env, s, rand);
  }

  /**
   * Two wrapped helpers called during the same request share its environment.
   * Once the first result has stored the bucket index, the second call reads
   * it back instead of drawing again, so both results are rewritten to the
   * bucket the request had before the first call, even when the second call's
   * generator would draw differently.
   */
  method TwoCallsOneBucket(first: Value, second: Value, env: RequestEnv, s: Settings,
                           rand1: SeededDraw, rand2: SeededDraw)
    returns (r1: Value, r2: Value)
    requires s.WellFormed() && env.Valid(s) && s.enabled && HasText(first)
    modifies env
    ensures env.Valid(s)
    ensures r1 == Decoration(first, s, old(env.Current(s, rand1)))
    ensures r2 == Decoration(second, s, old(env.Current(s, rand1)))
  {
    r1 := Decorated(first, env, s, rand1);
    r2 := Decorated(second, env, s, rand2);
  }
}
