# discourse-cdn-experiment, modelled in Dafny

The Discourse plugin `discourse-cdn-experiment` A/B tests CDN hosts. Each
request is put in a bucket, chosen from the client's IP address. Every asset
URL the wrapped view helpers produce is then rewritten from the default app
and S3 origins to the bucket's origins. The Content-Security-Policy's script
asset list is extended separately, so that it allows every alternate origin,
whatever bucket the current request is in.

The model has one module per part of the plugin:

- `Gsub` (`gsub.dfy`): Ruby's `String#include?` and `String#gsub` with a plain
  string pattern. `ReplaceAll` is the left-to-right, non-overlapping scan.
  `Split` gives the pieces between the matches that scan finds. Joining them
  with the pattern gives the text back, and joining them with the replacement
  is proved equal to `ReplaceAll`.
- `CdnPools` (`cdn_pools.dfy`): the settings the plugin reads, the two origin
  pools (default first, alternates after), the number of buckets (the shorter
  pool's length) and `pick_new_cdn_index`.
- `CdnIndex` (`cdn_index.dfy`): the request's Rack environment as a class
  `RequestEnv`, whose `entries` map `current_cdn_index` updates in place under
  `ENV_KEY`. `app_cdn_url` and `s3_cdn_url` are methods on it.
- `Rewriter` (`rewriter.dfy`): `perform_gsub`. `RewriteValue` is the pure
  specification over a `Value` (string with its html-safe flag, hash, or any
  other object). `PerformGsub` is the recursive method that reads and fills
  the environment's memo while it rewrites.
- `ContentSecurityPolicy` (`content_security_policy.dfy`): `script_assets`.
  `ScriptAssets` builds the extra entries with the source's two nested loops.
  It is proved equal to the specification `Augmented`.
- `ApplicationHelper` (`application_helper.dfy`): the wrapper put around the
  nine helpers in `WrappedHelpers`. The enabled gate comes first, then
  `perform_gsub` with the request's environment.

`plugin.rb:72-76` repeats the helper wrapper of
`lib/cdn_experiment/application_helper_extension.rb:18-22`.
`plugin.rb:80-95` repeats `script_assets` of
`lib/cdn_experiment/content_security_policy_extension.rb:7-23`. Each behaviour
is modelled once; the table cites the `lib/` copy.

Two facts about the code shape the model:

- The plugin has no override request parameter: the bucket comes from the
  client IP only.
- There is no empty-pool failure path: each pool starts with the default
  origin, so it is never empty (`AppCdnUrls`, `S3CdnUrls`).

Seams:

- `IPAddr.new(request.ip).to_i` is the `RequestEnv.clientIp` field.
- The seeded generator `Random.new(seed).rand(0...n)` is a parameter `rand` of
  type `SeededDraw`. That type covers every function from seed and bound to a
  number below the bound.
- The settings are a `Settings` value with the alternates already split on `|`.
- The original helper's result and `super`'s asset list are parameters.

## Model

| member | source | states |
|---|---|---|
| `Gsub.Contains` | lib/cdn_experiment/content_security_policy_extension.rb:12-16 | `include?`: a pattern longer than the text never occurs, the empty pattern always does |
| `Gsub.ReplaceAll` | plugin.rb:17-18 | `gsub` with a string pattern, scanning left to right without overlaps; replacing the pattern by itself (bucket 0's choice) returns the text unchanged, and a replacement as long as the pattern keeps the length |
| `Gsub.ReplaceAllWithoutMatch` | plugin.rb:17-18 | `gsub` on a string that does not contain the pattern returns the string unchanged |
| `Gsub.ReplaceAllIntroduces` | plugin.rb:17-18 | if the string contains the pattern, the result contains the replacement |
| `Gsub.JoinSplit` | plugin.rb:17-18 | the pieces between the scan's matches, joined with the pattern, give the string back |
| `Gsub.ReplaceAllIsSplitJoin` | plugin.rb:17-18 | `gsub` equals cutting at every match and joining the pieces with the replacement |
| `Gsub.SplitPiecesAvoidPattern` | plugin.rb:17-18 | no piece between the scan's matches contains the pattern |
| `CdnPools.AppCdnUrls` | plugin.rb:48-50 | the app pool is non-empty, has the default app origin at index 0 and exactly the configured alternates after it |
| `CdnPools.S3CdnUrls` | plugin.rb:52-54 | the S3 pool is non-empty, has the default S3 origin at index 0 and exactly the configured alternates after it |
| `CdnPools.BucketCount` | plugin.rb:44 | the bucket count is the minimum of the two pool lengths, and at least 1 |
| `CdnPools.PickNewCdnIndex` | plugin.rb:40-46 | the picked index is below both pool lengths, so both lookups are in range |
| `CdnPools.PickDependsOnlyOnIpAndPoolSizes` | plugin.rb:40-46 | the pick depends only on the client IP and the two pool lengths |
| `CdnIndex.RequestEnv.Current` | plugin.rb:36-37 | the index is the stored one if the env has `ENV_KEY`, otherwise the fresh pick; it is in range of both pools |
| `CdnIndex.RequestEnv.CurrentCdnIndex` | plugin.rb:36-38 | returns a stored index and leaves the env unchanged; otherwise stores the pick under `ENV_KEY`, changes no other entry, and returns it |
| `CdnIndex.RequestEnv.AppCdnUrl` | plugin.rb:32-34 | returns the app pool entry at the request's index and memoises that index |
| `CdnIndex.RequestEnv.S3CdnUrl` | plugin.rb:28-30 | returns the S3 pool entry at the request's index and memoises that index |
| `CdnIndex.OriginPair` | plugin.rb:28-37 | the app and S3 origins asked for in one request are both the pool entries at the bucket the request had before the calls |
| `Rewriter.RewriteText` | plugin.rb:17-18 | the app origin is replaced by the bucket's, then the S3 origin; bucket 0 returns the string unchanged |
| `Rewriter.RewriteValue` | plugin.rb:14-26 | what `perform_gsub` returns at bucket `i`: a string stays a string with the same html-safe flag, a hash keeps its keys in order with each value rewritten the same way, anything else is returned unchanged; bucket 0 (the default pair) returns every value unchanged |
| `Rewriter.RewriteWithoutOrigins` | plugin.rb:15-22 | a value in which no string mentions a default origin is returned unchanged |
| `Rewriter.RewriteTextUsesBucketOrigin` | plugin.rb:17-18 | a string mentioning the default app origin mentions the bucket's app origin after the rewrite, unless the S3 pass alters it |
| `Rewriter.SetupDataExample` | plugin.rb:21-24 | in bucket 1, a hash's default-origin value becomes the alternate origin and its number value is kept |
| `Rewriter.PerformGsub` | plugin.rb:14-26 | the result is `RewriteValue` of the input at the request's bucket; the bucket never changes; the env gains the memo exactly when the value holds a string |
| `Rewriter.GsubText` | plugin.rb:15-20 | a string gets the app origin replaced and then the S3 origin, at the request's bucket; its html-safe flag is the input's; the memo is stored |
| `Rewriter.GsubHash` | plugin.rb:21-22 | a hash keeps its keys in order, and each value is `perform_gsub` of the original value at the one bucket of the request |
| `ContentSecurityPolicy.DerivedEntries` | lib/cdn_experiment/content_security_policy_extension.rb:12-19 | the copies one entry contributes: app alternates when it mentions the app origin, else S3 alternates when it mentions the S3 origin, else none; as many as `ExtraFor` counts |
| `ContentSecurityPolicy.Augmented` | lib/cdn_experiment/content_security_policy_extension.rb:7-23 | the list `script_assets` returns; the original entries always stay in front, in order |
| `ContentSecurityPolicy.AppendCopies` | lib/cdn_experiment/content_security_policy_extension.rb:13-15 | appends, in pool order, one copy of the entry per alternate, with the default origin replaced by that alternate |
| `ContentSecurityPolicy.ScriptAssets` | lib/cdn_experiment/content_security_policy_extension.rb:7-23 | equals `Augmented`: the input unchanged when disabled; otherwise the original entries as a prefix, in order, followed by the derived entries |
| `ContentSecurityPolicy.SubstitutedAt` | lib/cdn_experiment/content_security_policy_extension.rb:13-14 | the k-th copy of an entry is the entry with the default origin replaced by the k-th alternate |
| `ContentSecurityPolicy.AugmentedLength` | lib/cdn_experiment/content_security_policy_extension.rb:11-22 | the output length is the input length plus, per entry, the app pool length minus 1, the S3 pool length minus 1, or 0 |
| `ContentSecurityPolicy.AllDerivedAt` | lib/cdn_experiment/content_security_policy_extension.rb:11-21 | derived entries are grouped by source entry in source order, each group in pool order |
| `ContentSecurityPolicy.AugmentedEntryAt` | lib/cdn_experiment/content_security_policy_extension.rb:12-19 | the returned list at the position of entry i's k-th copy holds the entry with its default origin replaced by alternate k+1: app alternates when the entry mentions the app origin (even if it also mentions S3), otherwise S3 alternates |
| `ContentSecurityPolicy.DerivedEntriesListed` | lib/cdn_experiment/content_security_policy_extension.rb:11-22 | every copy made from an entry is in the additional entries |
| `ContentSecurityPolicy.AugmentedAllowsEveryAppBucket` | lib/cdn_experiment/content_security_policy_extension.rb:12-15 | for every app bucket, the entry rewritten to that bucket's app origin is in the list and mentions that origin; the list does not depend on the request's bucket |
| `ContentSecurityPolicy.AugmentedAllowsEveryS3Bucket` | lib/cdn_experiment/content_security_policy_extension.rb:16-19 | the same for every S3 bucket and an entry that mentions only the default S3 origin |
| `ApplicationHelper.Decoration` | lib/cdn_experiment/application_helper_extension.rb:18-22 | disabled: the helper's result unchanged; enabled: `RewriteValue` of it, with shape and html-safe flags kept; bucket 0 leaves the result unchanged |
| `ApplicationHelper.DecorationWithoutOrigins` | lib/cdn_experiment/application_helper_extension.rb:18-22 | a result none of whose strings mentions a default origin comes back unchanged |
| `ApplicationHelper.Decorated` | lib/cdn_experiment/application_helper_extension.rb:18-22 | disabled: result and env unchanged; enabled: `perform_gsub` with the request's env and its memoised bucket |
| `ApplicationHelper.TwoCallsOneBucket` | lib/cdn_experiment/application_helper_extension.rb:21 | once a first wrapped result holding a string has stored the bucket, a second wrapped call in the same request is rewritten to that same bucket, even if its generator would draw another one |

## Left out

- Rails hooking (`alias_method`, `define_method`, `class_eval`, `ActiveSupport::Concern`, `super`, `reloadable_patch`, `after_initialize`, `enabled_site_setting`): each wrapper is modelled as a decorator over the original result.
- Which helpers are wrapped: `WrappedHelpers` lists the nine names, but their original implementations are not modelled. Each helper's result is a parameter.
- IP handling: `Rack::Request#ip` and `IPAddr` parsing of IPv4/IPv6 text are library code. The client IP arrives as its integer value.
- Ruby's Mersenne Twister (`Random.new(seed).rand`) is library code. It is the parameter `rand`, known only to be deterministic and in range.
- Settings storage and `String#split("|")` quirks, such as dropped trailing empty fields: the alternates arrive as already-split sequences.
- Unset or empty default origins: `gsub(nil, …)` raises and `gsub("", …)` matches at every position. `Settings.WellFormed` requires both defaults to be non-empty.
- Backslash sequences in a `gsub` replacement string (`\0`, `\&`, …) are not interpreted. `ReplaceAll` inserts the replacement literally, which matches the source for origins without backslashes.
- `RequestEnv.entries` holds only integer values. The other Rack env entries are not typed; only the memo key is read or written.
- Arrays, numbers, nil and other non-String, non-Hash values are one `Opaque` case. `perform_gsub` returns them unchanged, arrays of URLs included.
- The integration test's `_cdn_index` request parameter and its stubbed `CdnExperiment.index_from_ip` have no code behind them in the plugin, so they are not modelled.
- Anonymous-cache key contribution: the plugin's code does not have it.
