/**
 * The extension of the Content-Security-Policy's `script_assets` list. The
 * policy must allow every origin a client could be sent to, not only the one
 * of the current request, so each entry that mentions a default origin is
 * followed (after all original entries) by one copy per alternate origin.
 */
module ContentSecurityPolicy {
  import opened Gsub
  import opened CdnPools

  /** `entry.gsub(origin, alt)` for each alternate, in pool order. */
  function Substituted(entry: string, origin: string, alternates: seq<string>): (r: seq<string>)
    requires |origin| > 0
    ensures |r| == |alternates|
  {
    if alternates == [] then []
    else Substituted(entry, origin, alternates[..|alternates| - 1])
         + [ReplaceAll(entry, origin, alternates[|alternates| - 1])]
  }

  /** The `k`-th copy replaces the origin by the `k`-th alternate. */
  lemma {:induction false} SubstitutedAt(entry: string, origin: string, alternates: seq<string>, k: nat)
    requires |origin| > 0 && k < |alternates|
    ensures Substituted(entry, origin, alternates)[k] == ReplaceAll(entry, origin, alternates[k])
    decreases |alternates|
  {
    var init := alternates[..|alternates| - 1];
    if k < |init| {
      SubstitutedAt(entry, origin, init, k);
    }
  }

  /** One more alternate adds its copy at the end. */
  lemma SubstitutedStep(entry: string, origin: string, alternates: seq<string>, k: nat)
    requires |origin| > 0 && k < |alternates|
    ensures Substituted(entry, origin, alternates[..k + 1])
      == Substituted(entry, origin, alternates[..k]) + [ReplaceAll(entry, origin, alternates[k])]
  {
    assert alternates[..k + 1][..k] == alternates[..k];
  }

  /**
   * The entries one original entry contributes: app alternates when it mentions
   * the default app origin (even if it also mentions the S3 one), else S3
   * alternates when it mentions the default S3 origin, else none.
   */
  function DerivedEntries(entry: string, s: Settings): (r: seq<string>)
    requires s.WellFormed()
    ensures |r| == ExtraFor(entry, s)
  {
    if Contains(entry, s.cdnUrl) then Substituted(entry, s.cdnUrl, AppCdnUrls(s)[1..])
    else if Contains(entry, s.s3CdnUrl) then Substituted(entry, s.s3CdnUrl, S3CdnUrls(s)[1..])
    else []
  }

  /** How many entries one original entry contributes. */
  function ExtraFor(entry: string, s: Settings): nat
    requires s.WellFormed()
  {
    if Contains(entry, s.cdnUrl) then |AppCdnUrls(s)| - 1
    else if Contains(entry, s.s3CdnUrl) then |S3CdnUrls(s)| - 1
    else 0
  }

  /** Sum of `ExtraFor` over the entries. */
  function ExtraCount(entries: seq<string>, s: Settings): nat
    requires s.WellFormed()
  {
    if entries == [] then 0
    else ExtraCount(entries[..|entries| - 1], s) + ExtraFor(entries[|entries| - 1], s)
  }

  /** The chunks one after the other. */
  function Concat<T>(chunks: seq<seq<T>>): seq<T> {
    if chunks == [] then [] else Concat(chunks[..|chunks| - 1]) + chunks[|chunks| - 1]
  }

  /** The copies each entry contributes, entry by entry. */
  function Derivations(entries: seq<string>, s: Settings): (d: seq<seq<string>>)
    requires s.WellFormed()
    ensures |d| == |entries|
  {
    seq(|entries|, i requires 0 <= i < |entries| => DerivedEntries(entries[i], s))
  }

  /** `additional_entries` after the loop: derived entries grouped by source entry, in source order. */
  function AllDerived(entries: seq<string>, s: Settings): seq<string>
    requires s.WellFormed()
  {
    Concat(Derivations(entries, s))
  }

  /**
   * The list `script_assets` returns, given the list the overridden method
   * returned: the original entries stay in front, in order.
   */
  function Augmented(entries: seq<string>, s: Settings): (r: seq<string>)
    requires s.WellFormed()
    ensures |entries| <= |r| && r[..|entries|] == entries
  {
    if !s.enabled then entries else entries + AllDerived(entries, s)
  }

  /**
   * `alternates.each { |alt| additional << entry.gsub(origin, alt) }`: appends
   * one copy of the entry per alternate, in order.
   */
  method AppendCopies(additional: seq<string>, entry: string, origin: string, alternates: seq<string>)
    returns (out: seq<string>)
    requires |origin| > 0
    ensures out == additional + Substituted(entry, origin, alternates)
  {
    out := additional;
    for k := 0 to |alternates|
      invariant out == additional + Substituted(entry, origin, alternates[..k])
    {
      SubstitutedStep(entry, origin, alternates, k);
      out := out + [ReplaceAll(entry, origin, alternates[k])];
    }
    assert alternates[..|alternates|] == alternates;
  }

  /**
   * `script_assets`: when the experiment is off the entries come back as they
   * are; otherwise the original entries, in order, then the derived ones.
   */
  method ScriptAssets(entries: seq<string>, s: Settings) returns (r: seq<string>)
    requires s.WellFormed()
    ensures r == Augmented(entries, s)
    ensures !s.enabled ==> r == entries
    ensures |entries| <= |r| && r[..|entries|] == entries
  {
    if !s.enabled {
      return entries;
    }
    var additional: seq<string> := [];
    for i := 0 to |entries|
      invariant additional == AllDerived(entries[..i], s)
    {
      var entry := entries[i];
      AllDerivedStep(entries, s, i);
      if Contains(entry, s.cdnUrl) {
        assert DerivedEntries(entry, s) == Substituted(entry, s.cdnUrl, AppCdnUrls(s)[1..]);
        additional := AppendCopies(additional, entry, s.cdnUrl, AppCdnUrls(s)[1..]);
      } else if Contains(entry, s.s3CdnUrl) {
        assert DerivedEntries(entry, s) == Substituted(entry, s.s3CdnUrl, S3CdnUrls(s)[1..]);
        additional := AppendCopies(additional, entry, s.s3CdnUrl, S3CdnUrls(s)[1..]);
      } else {
        assert DerivedEntries(entry, s) == [];
      }
    }
    assert entries[..|entries|] == entries;
    r := entries + additional;
  }

  /** One more chunk lands at the end. */
  lemma ConcatStep<T>(chunks: seq<seq<T>>, i: nat)
    requires i < |chunks|
    ensures Concat(chunks[..i + 1]) == Concat(chunks[..i]) + chunks[i]
  {
    assert chunks[..i + 1][..i] == chunks[..i];
  }

  /** One more entry adds its own copies at the end. */
  lemma AllDerivedStep(entries: seq<string>, s: Settings, i: nat)
    requires s.WellFormed() && i < |entries|
    ensures AllDerived(entries[..i + 1], s) == AllDerived(entries[..i], s) + DerivedEntries(entries[i], s)
  {
    var d := Derivations(entries, s);
    assert Derivations(entries[..i + 1], s) == d[..i + 1];
    assert Derivations(entries[..i], s) == d[..i];
    ConcatStep(d, i);
  }

  /** The derived list is exactly as long as the counts say. */
  lemma {:induction false} AllDerivedLength(entries: seq<string>, s: Settings)
    requires s.WellFormed()
    ensures |AllDerived(entries, s)| == ExtraCount(entries, s)
    decreases |entries|
  {
    if entries != [] {
      var n := |entries| - 1;
      assert entries[..n + 1] == entries;
      AllDerivedStep(entries, s, n);
      AllDerivedLength(entries[..n], s);
    }
  }

  /**
   * Output length: the original entries plus `|app pool| - 1`, `|s3 pool| - 1`
   * or nothing for each entry, according to the origin it mentions.
   */
  lemma AugmentedLength(entries: seq<string>, s: Settings)
    requires s.WellFormed()
    ensures |Augmented(entries, s)| == |entries| + (if s.enabled then ExtraCount(entries, s) else 0)
  {
    AllDerivedLength(entries, s);
  }

  /**
   * Where a derived entry sits: the `k`-th copy made from entry `i` comes
   * right after the copies made from the entries before `i`.
   */
  lemma {:induction false} ConcatAt<T>(chunks: seq<seq<T>>, i: nat, k: nat)
    requires i < |chunks| && k < |chunks[i]|
    ensures |Concat(chunks[..i])| + k < |Concat(chunks)|
    ensures Concat(chunks)[|Concat(chunks[..i])| + k] == chunks[i][k]
    decreases |chunks|
  {
    var n := |chunks| - 1;
    var init := chunks[..n];
    assert Concat(chunks) == Concat(init) + chunks[n];
    if i < n {
      assert init[..i] == chunks[..i];
      ConcatAt(init, i, k);
    } else {
      assert chunks[..i] == init;
    }
  }

  lemma AllDerivedAt(entries: seq<string>, s: Settings, i: nat, k: nat)
    requires s.WellFormed() && i < |entries| && k < |DerivedEntries(entries[i], s)|
    ensures |AllDerived(entries[..i], s)| + k < |AllDerived(entries, s)|
    ensures AllDerived(entries, s)[|AllDerived(entries[..i], s)| + k] == DerivedEntries(entries[i], s)[k]
  {
    var d := Derivations(entries, s);
    assert Derivations(entries[..i], s) == d[..i];
    ConcatAt(d, i, k);
  }

  /**
   * In the returned list, the `k`-th copy of entry `i` is that entry with the
   * default app origin replaced by the `(k+1)`-th app origin when the entry
   * mentions the app origin, or by the `(k+1)`-th S3 origin when it mentions
   * only the S3 origin.
   */
  lemma AugmentedEntryAt(entries: seq<string>, s: Settings, i: nat, k: nat)
    requires s.WellFormed() && s.enabled && i < |entries| && k < ExtraFor(entries[i], s)
    ensures |entries| + ExtraCount(entries[..i], s) + k < |Augmented(entries, s)|
    ensures Contains(entries[i], s.cdnUrl) ==>
      Augmented(entries, s)[|entries| + ExtraCount(entries[..i], s) + k]
        == ReplaceAll(entries[i], s.cdnUrl, AppCdnUrls(s)[k + 1])
    ensures !Contains(entries[i], s.cdnUrl) ==>
      Augmented(entries, s)[|entries| + ExtraCount(entries[..i], s) + k]
        == ReplaceAll(entries[i], s.s3CdnUrl, S3CdnUrls(s)[k + 1])
  {
    AllDerivedLength(entries[..i], s);
    AllDerivedAt(entries, s, i, k);
    if Contains(entries[i], s.cdnUrl) {
      SubstitutedAt(entries[i], s.cdnUrl, AppCdnUrls(s)[1..], k);
    } else {
      SubstitutedAt(entries[i], s.s3CdnUrl, S3CdnUrls(s)[1..], k);
    }
  }

  /** Every copy made from entry `i` appears in the derived list. */
  lemma DerivedEntriesListed(entries: seq<string>, s: Settings, i: nat, k: nat)
    requires s.WellFormed() && i < |entries| && k < |DerivedEntries(entries[i], s)|
    ensures DerivedEntries(entries[i], s)[k] in AllDerived(entries, s)
  {
    AllDerivedAt(entries, s, i, k);
  }

  /**
   * Whatever bucket a client is given, the app-origin rewrite of an entry that
   * mentions the default app origin is in the list: bucket 0 is the entry
   * itself, bucket `b > 0` its `b`-th copy. So the policy does not depend on
   * the current request's bucket.
   */
  lemma AugmentedAllowsEveryAppBucket(entries: seq<string>, s: Settings, i: nat, b: nat)
    requires s.WellFormed() && s.enabled && i < |entries| && b < |AppCdnUrls(s)|
    requires Contains(entries[i], s.cdnUrl)
    ensures ReplaceAll(entries[i], s.cdnUrl, AppCdnUrls(s)[b]) in Augmented(entries, s)
    ensures Contains(ReplaceAll(entries[i], s.cdnUrl, AppCdnUrls(s)[b]), AppCdnUrls(s)[b])
  {
    ReplaceAllIntroduces(entries[i], s.cdnUrl, AppCdnUrls(s)[b]);
    if b == 0 {
      assert Augmented(entries, s)[i] == entries[i];
    } else {
      SubstitutedAt(entries[i], s.cdnUrl, AppCdnUrls(s)[1..], b - 1);
      DerivedEntriesListed(entries, s, i, b - 1);
    }
  }

  /** The same for an entry that mentions the default S3 origin but not the app one. */
  lemma AugmentedAllowsEveryS3Bucket(entries: seq<string>, s: Settings, i: nat, b: nat)
    requires s.WellFormed() && s.enabled && i < |entries| && b < |S3CdnUrls(s)|
    requires !Contains(entries[i], s.cdnUrl) && Contains(entries[i], s.s3CdnUrl)
    ensures ReplaceAll(entries[i], s.s3CdnUrl, S3CdnUrls(s)[b]) in Augmented(entries, s)
    ensures Contains(ReplaceAll(entries[i], s.s3CdnUrl, S3CdnUrls(s)[b]), S3CdnUrls(s)[b])
  {
    ReplaceAllIntroduces(entries[i], s.s3CdnUrl, S3CdnUrls(s)[b]);
    if b == 0 {
      assert Augmented(entries, s)[i] == entries[i];
    } else {
      SubstitutedAt(entries[i], s.s3CdnUrl, S3CdnUrls(s)[1..], b - 1);
      DerivedEntriesListed(entries, s, i, b - 1);
    }
  }
}
