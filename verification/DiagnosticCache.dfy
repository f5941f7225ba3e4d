/**
  The diagnostics published for the files of one language server, kept within
  128 files and 8 MiB: the least recently used files give way.

  `View` is the cache as an ideal list of buckets from the least to the most
  recently used one; the class is the cache as it is stored.
 */
module DiagnosticCache {
  import opened Wrappers
  import opened Machine
  import opened Recency
  import Utf8
  import DiagnosticEstimate

  const MAX_DIAGNOSTIC_URI_BUCKETS: nat := 128
  const MAX_DIAGNOSTICS_PER_URI: nat := 1024
  const MAX_DIAGNOSTIC_RETAINED_BYTES: nat := 8 * 1024 * 1024

  datatype Diagnostic = Diagnostic(uri: string, body: DiagnosticEstimate.Diagnostic)

  datatype Bucket = Bucket(uri: string, diagnostics: seq<Diagnostic>, estimate: nat)

  /**
    What the cache takes from elsewhere: which URIs name local files,
    the sizes of its types, and the estimator's limits.
   */
  datatype Config = Config(
    isLocal: string -> bool, bucketSize: nat, diagnosticSize: nat,
    limits: DiagnosticEstimate.Limits, sizes: DiagnosticEstimate.Sizes)
  {
    predicate Valid() { limits.Valid() && limits.retained == MAX_DIAGNOSTIC_RETAINED_BYTES }

    function HeapOf(d: Diagnostic): Option<nat> {
      if d.body.Accepted(limits, sizes)
      then Some(d.body.Strings() + DiagnosticEstimate.CostOf(d.body.raw, sizes).heap) else None
    }

    function Base(uri: string): nat { bucketSize + Utf8.Length(uri) }
  }

  // ---------------------------------------------------------------------------
  // What a publication retains
  // ---------------------------------------------------------------------------

  datatype Kept = Kept(diagnostics: seq<Diagnostic>, heap: nat)

  function Estimate(uri: string, kept: Kept, config: Config): nat {
    config.Base(uri) + |kept.diagnostics| * config.diagnosticSize + kept.heap
  }

  function Consider(uri: string, kept: Kept, d: Diagnostic, config: Config): Kept {
    if d.uri != uri || config.HeapOf(d).None? then kept
    else
      var more := Kept(kept.diagnostics + [d], kept.heap + config.HeapOf(d).value);
      if Estimate(uri, more, config) <= MAX_DIAGNOSTIC_RETAINED_BYTES then more else kept
  }

  function ConsiderAll(uri: string, published: seq<Diagnostic>, config: Config): Kept {
    if published == [] then Kept([], 0)
    else Consider(uri, ConsiderAll(uri, published[..|published| - 1], config), published[|published| - 1], config)
  }

  function Inspected(published: seq<Diagnostic>): seq<Diagnostic> {
    if |published| <= MAX_DIAGNOSTICS_PER_URI then published else published[..MAX_DIAGNOSTICS_PER_URI]
  }

  function Retained(uri: string, published: seq<Diagnostic>, config: Config): Kept {
    if config.Base(uri) > MAX_DIAGNOSTIC_RETAINED_BYTES then Kept([], 0)
    else ConsiderAll(uri, Inspected(published), config)
  }

  /** `a` can be had from `b` by leaving elements out. */
  ghost predicate Subsequence<T(!new)>(a: seq<T>, b: seq<T>)
    decreases |b|
  {
    a == [] || (b != [] && (Subsequence(a, b[..|b| - 1])
                            || (a[|a| - 1] == b[|b| - 1] && Subsequence(a[..|a| - 1], b[..|b| - 1]))))
  }

  lemma {:induction false} SubsequenceOfMore<T(!new)>(a: seq<T>, b: seq<T>, n: nat)
    requires n <= |b| && Subsequence(a, b[..n])
    ensures Subsequence(a, b)
    decreases |b| - n
  {
    if n == |b| {
      assert b[..n] == b;
    } else {
      assert b[..n + 1][..n] == b[..n];
      SubsequenceOfMore(a, b, n + 1);
    }
  }

  lemma {:induction false} SubsequenceIsShorter<T(!new)>(a: seq<T>, b: seq<T>)
    requires Subsequence(a, b)
    ensures |a| <= |b| && (|a| == |b| ==> a == b)
    decreases |b|
  {
    if a != [] {
      if Subsequence(a, b[..|b| - 1]) {
        SubsequenceIsShorter(a, b[..|b| - 1]);
      } else {
        SubsequenceIsShorter(a[..|a| - 1], b[..|b| - 1]);
        assert a == a[..|a| - 1] + [a[|a| - 1]] && b == b[..|b| - 1] + [b[|b| - 1]];
      }
    }
  }

  /** What is retained comes from this publication, in order, bears the URI, and is counted exactly. */
  lemma {:induction false} ConsideredIsPublished(uri: string, published: seq<Diagnostic>, config: Config)
    requires config.Base(uri) <= MAX_DIAGNOSTIC_RETAINED_BYTES
    ensures var kept := ConsiderAll(uri, published, config);
            && Subsequence(kept.diagnostics, published)
            && (forall d <- kept.diagnostics :: d.uri == uri)
            && Estimate(uri, kept, config) <= MAX_DIAGNOSTIC_RETAINED_BYTES
  {
    if published != [] {
      ConsideredIsPublished(uri, published[..|published| - 1], config);
    }
  }

  lemma RetainedIsPublished(uri: string, published: seq<Diagnostic>, config: Config)
    ensures var kept := Retained(uri, published, config).diagnostics;
            && Subsequence(kept, published)
            && |kept| <= MAX_DIAGNOSTICS_PER_URI
            && (|kept| == |published| ==> kept == published)
            && (forall d <- kept :: d.uri == uri)
            && (kept != [] ==> Estimate(uri, Retained(uri, published, config), config) <= MAX_DIAGNOSTIC_RETAINED_BYTES)
  {
    hide ConsiderAll;
    if config.Base(uri) <= MAX_DIAGNOSTIC_RETAINED_BYTES {
      ConsideredIsPublished(uri, Inspected(published), config);
      var kept := Retained(uri, published, config).diagnostics;
      SubsequenceIsShorter(kept, Inspected(published));
      assert published[..|published|] == published;
      SubsequenceOfMore(kept, published, |Inspected(published)|);
      SubsequenceIsShorter(kept, published);
    }
  }

  /** The heap of diagnostics, each of which has an estimate. */
  function HeapSum(published: seq<Diagnostic>, config: Config): nat {
    if published == [] then 0
    else
      var last := config.HeapOf(published[|published| - 1]);
      HeapSum(published[..|published| - 1], config) + if last.Some? then last.value else 0
  }

  predicate Retainable(uri: string, d: Diagnostic, config: Config) { d.uri == uri && config.HeapOf(d).Some? }

  ghost predicate AllRetainable(uri: string, published: seq<Diagnostic>, config: Config) {
    forall d <- published :: Retainable(uri, d, config)
  }

  /** All of them can be retained together. */
  ghost predicate FitsWhole(uri: string, published: seq<Diagnostic>, config: Config) {
    && AllRetainable(uri, published, config)
    && Estimate(uri, Kept(published, HeapSum(published, config)), config) <= MAX_DIAGNOSTIC_RETAINED_BYTES
  }

  lemma {:induction false} ConsideredAllIff(uri: string, published: seq<Diagnostic>, config: Config)
    requires config.Base(uri) <= MAX_DIAGNOSTIC_RETAINED_BYTES
    ensures var kept := ConsiderAll(uri, published, config);
            && |kept.diagnostics| <= |published|
            && (kept.diagnostics == published <==> FitsWhole(uri, published, config))
            && (kept.diagnostics == published ==> kept.heap == HeapSum(published, config))
  {
    hide Estimate, Config.HeapOf, HeapSum, FitsWhole, Consider;
    if published == [] {
      EmptyFits(uri, config);
    } else {
      var before, d := published[..|published| - 1], published[|published| - 1];
      ConsideredAllIff(uri, before, config);
      ConsiderOne(uri, before, ConsiderAll(uri, before, config), d, config);
      assert published == before + [d];
    }
  }

  /** One more diagnostic is retained with all before it exactly when it can be and still fits. */
  lemma ConsiderOne(uri: string, before: seq<Diagnostic>, kept: Kept, d: Diagnostic, config: Config)
    requires |kept.diagnostics| <= |before|
    requires kept.diagnostics == before <==> FitsWhole(uri, before, config)
    requires kept.diagnostics == before ==> kept.heap == HeapSum(before, config)
    ensures var more := Consider(uri, kept, d, config);
            && |more.diagnostics| <= |before| + 1
            && (more.diagnostics == before + [d] <==> FitsWhole(uri, before + [d], config))
            && (more.diagnostics == before + [d] ==> more.heap == HeapSum(before + [d], config))
  {
    var published := before + [d];
    var heap := HeapSum(before, config);
    assert published[..|published| - 1] == before;
    SumOfOneMore(before, d, config);
    hide Estimate, Config.HeapOf, HeapSum;
    EstimateGrows(uri, before, heap, d, HeapSum(published, config) - heap, config);
    assert AllRetainable(uri, published, config) <==> AllRetainable(uri, before, config) && Retainable(uri, d, config);
    if kept.diagnostics != before {
      assert Consider(uri, kept, d, config).diagnostics != published by {
        PrefixDiffers(kept.diagnostics, before, d);
      }
    }
  }

  lemma PrefixDiffers(kept: seq<Diagnostic>, before: seq<Diagnostic>, d: Diagnostic)
    requires kept != before && |kept| <= |before|
    ensures kept != before + [d] && kept + [d] != before + [d]
  {
    assert (kept + [d])[..|kept|] == kept;
    assert (before + [d])[..|before|] == before;
  }

  lemma SumOfOneMore(before: seq<Diagnostic>, d: Diagnostic, config: Config)
    ensures HeapSum(before + [d], config)
         == HeapSum(before, config) + if config.HeapOf(d).Some? then config.HeapOf(d).value else 0
  {
    hide Config.HeapOf;
    assert (before + [d])[..|before|] == before;
  }

  lemma EmptyFits(uri: string, config: Config)
    requires config.Base(uri) <= MAX_DIAGNOSTIC_RETAINED_BYTES
    ensures FitsWhole(uri, [], config) && HeapSum([], config) == 0
  {
    EmptyEstimate(uri, config);
  }

  lemma EmptyEstimate(uri: string, config: Config)
    ensures Estimate(uri, Kept([], 0), config) == config.Base(uri)
  {
  }

  lemma EstimateGrows(uri: string, before: seq<Diagnostic>, heap: nat, d: Diagnostic, more: nat, config: Config)
    ensures Estimate(uri, Kept(before, heap), config) <= Estimate(uri, Kept(before + [d], heap + more), config)
  {
    assert (|before| + 1) * config.diagnosticSize == |before| * config.diagnosticSize + config.diagnosticSize;
  }

  /** A publication is retained whole exactly when it is short enough, bears the URI throughout and fits the budget. */
  lemma RetainedWholeIff(uri: string, published: seq<Diagnostic>, config: Config)
    ensures Retained(uri, published, config).diagnostics == published
       <==> published == [] || (|published| <= MAX_DIAGNOSTICS_PER_URI && FitsWhole(uri, published, config))
  {
    hide ConsiderAll, AllRetainable;
    RetainedIsPublished(uri, published, config);
    if config.Base(uri) <= MAX_DIAGNOSTIC_RETAINED_BYTES {
      ConsideredAllIff(uri, Inspected(published), config);
    }
  }

  // ---------------------------------------------------------------------------
  // The ideal list
  // ---------------------------------------------------------------------------

  datatype View = View(buckets: seq<Bucket>, partial: bool)

  const EMPTY: View := View([], false)

  function Total(buckets: seq<Bucket>): nat {
    if buckets == [] then 0 else Total(buckets[..|buckets| - 1]) + buckets[|buckets| - 1].estimate
  }

  function BucketOf(buckets: seq<Bucket>, uri: string): (r: Option<Bucket>)
    ensures r.Some? ==> r.value in buckets && r.value.uri == uri
    ensures r.None? ==> forall b <- buckets :: b.uri != uri
  {
    if buckets == [] then None
    else if buckets[|buckets| - 1].uri == uri then Some(buckets[|buckets| - 1])
    else BucketOf(buckets[..|buckets| - 1], uri)
  }

  function Drop(buckets: seq<Bucket>, found: Option<Bucket>): seq<Bucket> {
    match found
    case None => buckets
    case Some(b) => Without(buckets, b)
  }

  function Purged(buckets: seq<Bucket>, uri: string): seq<Bucket> {
    Drop(buckets, BucketOf(buckets, uri))
  }

  /** Whether a bucket of `incoming` bytes can be added. */
  predicate Room(buckets: seq<Bucket>, incoming: nat) {
    |buckets| < MAX_DIAGNOSTIC_URI_BUCKETS && Total(buckets) + incoming <= MAX_DIAGNOSTIC_RETAINED_BYTES
  }

  /** How many of the oldest buckets have to go. */
  function Evictions(buckets: seq<Bucket>, incoming: nat): (k: nat)
    ensures k <= |buckets|
  {
    if Room(buckets, incoming) || buckets == [] then 0 else 1 + Evictions(buckets[1..], incoming)
  }

  /** No shorter run of oldest buckets makes room, and this one does. */
  lemma {:induction false} EvictionsAreShortest(buckets: seq<Bucket>, incoming: nat)
    requires incoming <= MAX_DIAGNOSTIC_RETAINED_BYTES
    ensures Room(buckets[Evictions(buckets, incoming)..], incoming)
    ensures forall k | 0 <= k < Evictions(buckets, incoming) :: !Room(buckets[k..], incoming)
  {
    if buckets != [] && !Room(buckets, incoming) {
      EvictionsAreShortest(buckets[1..], incoming);
      var n := Evictions(buckets[1..], incoming);
      assert buckets[1..][n..] == buckets[1 + n..];
      forall k | 0 <= k < 1 + n ensures !Room(buckets[k..], incoming) {
        if k > 0 {
          assert buckets[1..][k - 1..] == buckets[k..];
        } else {
          assert buckets[0..] == buckets;
        }
      }
    } else {
      assert buckets[0..] == buckets;
    }
  }

  function Replace(v: View, uri: string, published: seq<Diagnostic>, config: Config): View {
    if !config.isLocal(uri) then v.(partial := true)
    else if published == [] then v.(buckets := Purged(v.buckets, uri))
    else Admit(View(Purged(v.buckets, uri), v.partial), uri, |published|, Retained(uri, published, config), config)
  }

  /** A bucket takes its place at the back, after the evictions that it needs. */
  function Admit(v: View, uri: string, received: nat, kept: Kept, config: Config): View {
    var partial := v.partial || |kept.diagnostics| < received;
    if kept.diagnostics == [] then v.(partial := partial)
    else
      var bucket := Bucket(uri, kept.diagnostics, Estimate(uri, kept, config));
      var k := Evictions(v.buckets, bucket.estimate);
      View(v.buckets[k..] + [bucket], partial || k > 0)
  }

  function MarkUsed(v: View, uri: string): View {
    match BucketOf(v.buckets, uri)
    case None => v
    case Some(b) => v.(buckets := Without(v.buckets, b) + [b])
  }

  // ---------------------------------------------------------------------------
  // Reports
  // ---------------------------------------------------------------------------

  datatype Report = Report(
    received: nat, retained: nat, dropped: nat, truncated: bool,
    evictedBuckets: nat, evictedDiagnostics: nat, partial: bool)

  function Diagnostics(buckets: seq<Bucket>): nat {
    if buckets == [] then 0 else Diagnostics(buckets[..|buckets| - 1]) + |buckets[|buckets| - 1].diagnostics|
  }

  function ReportOf(v: View, uri: string, published: seq<Diagnostic>, config: Config): Report {
    var received, after := |published|, Replace(v, uri, published, config);
    if !config.isLocal(uri) then Report(received, 0, received, received != 0, 0, 0, true)
    else if published == [] then Report(0, 0, 0, false, 0, 0, v.partial)
    else
      var kept := Retained(uri, published, config);
      var retained := |kept.diagnostics|;
      var dropped := SaturatingMinus(received, retained);
      var purged := Purged(v.buckets, uri);
      var k := if retained == 0 then 0 else Evictions(purged, Estimate(uri, kept, config));
      Report(received, retained, dropped, dropped != 0, k, Diagnostics(purged[..k]), after.partial)
  }

  // ---------------------------------------------------------------------------
  // The cache as it is stored
  // ---------------------------------------------------------------------------

  ghost predicate UniqueUris(buckets: seq<Stamped<Bucket>>) {
    forall i, j | 0 <= i < j < |buckets| :: buckets[i].item.uri != buckets[j].item.uri
  }

  class Cache {
    const config: Config
    var buckets: seq<Stamped<Bucket>>
    var retainedBytes: nat
    var nextOrdinal: nat
    var partial: bool

    /** Unique URIs, a sound clock, and a byte total that is the sum of the buckets and within budget. */
    ghost predicate Valid()
      reads this
    {
      && config.Valid()
      && |buckets| <= MAX_DIAGNOSTIC_URI_BUCKETS
      && UniqueUris(buckets)
      && Ticking(buckets, nextOrdinal)
      && retainedBytes == Total(Chrono(buckets)) <= MAX_DIAGNOSTIC_RETAINED_BYTES
    }

    ghost function Contents(): View
      reads this
    {
      View(Chrono(buckets), partial)
    }

    constructor (config: Config)
      requires config.Valid()
      ensures Valid() && Contents() == EMPTY && this.config == config
    {
      this.config := config;
      buckets, retainedBytes, nextOrdinal, partial := [], 0, 1, false;
    }

    method IndexOf(uri: string) returns (k: Option<nat>)
      requires Valid()
      ensures match k
              case None => BucketOf(Chrono(buckets), uri) == None
              case Some(i) => i < |buckets| && buckets[i].item.uri == uri
                              && BucketOf(Chrono(buckets), uri) == Some(buckets[i].item)
    {
      k := None;
      for i := 0 to |buckets|
        invariant k == None && forall j | 0 <= j < i :: buckets[j].item.uri != uri
      {
        if buckets[i].item.uri == uri {
          FoundBucket(buckets, i);
          return Some(i);
        }
      }
      NoBucket(buckets, uri);
    }

    /** Reading does not count as use. */
    method Get(uri: string) returns (diagnostics: Option<seq<Diagnostic>>)
      requires Valid()
      ensures diagnostics == match BucketOf(Contents().buckets, uri)
                             case None => None
                             case Some(b) => Some(b.diagnostics)
    {
      var k := IndexOf(uri);
      diagnostics := if k.None? then None else Some(buckets[k.value].item.diagnostics);
    }

    method RemoveIndex(k: nat) returns (removed: Bucket)
      requires Valid() && k < |buckets|
      modifies this
      ensures Valid() && removed == old(buckets)[k].item && buckets == RemoveAt(old(buckets), k)
      ensures Contents() == old(Contents()).(buckets := Without(old(Contents()).buckets, removed))
    {
      hide Chrono, Items, Total;
      Uris(buckets);
      RemovedItem(buckets, k);
      FewerUris(buckets, k);
      OneLess(buckets, k);
      RestBelow(buckets, k, nextOrdinal);
      ChronoIsDistinct(buckets);
      assert buckets[k].item in Items(buckets) by { ItemIsThere(buckets, k); }
      TotalWithout(Chrono(buckets), buckets[k].item);
      removed := buckets[k].item;
      buckets := buckets[..k] + buckets[k + 1..];
      retainedBytes := SaturatingMinus(retainedBytes, removed.estimate);
    }

    /** Removes the bucket with the least ordinal, if there is any. */
    method RemoveLru() returns (removed: Option<Bucket>)
      requires Valid()
      modifies this
      ensures Valid()
      ensures if old(buckets) == [] then removed.None? && Contents() == old(Contents()) && buckets == []
              else && removed == Some(old(Contents()).buckets[0])
                   && Contents() == old(Contents()).(buckets := old(Contents()).buckets[1..])
      ensures forall uri | BucketOf(old(Contents()).buckets, uri).None? :: BucketOf(Contents().buckets, uri).None?
    {
      hide Chrono, Items, Total;
      if buckets == [] {
        return None;
      }
      var k := Oldest(buckets);
      OldestIsFirst(buckets, k);
      Uris(buckets);
      ChronoIsDistinct(buckets);
      WithoutFirst(Chrono(buckets));
      var bucket := RemoveIndex(k);
      removed := Some(bucket);
    }

    method Purge(uri: string) returns (found: bool)
      requires Valid()
      modifies this
      ensures Valid() && found == BucketOf(old(Contents()).buckets, uri).Some?
      ensures Contents() == old(Contents()).(buckets := Purged(old(Contents()).buckets, uri))
    {
      hide Chrono, BucketOf;
      var k := IndexOf(uri);
      if k.None? {
        return false;
      }
      var _ := RemoveIndex(k.value);
      found := true;
    }

    method MarkBucketUsed(uri: string) returns (found: bool)
      requires Valid()
      modifies this
      ensures Valid() && found == BucketOf(old(Contents()).buckets, uri).Some?
      ensures Contents() == MarkUsed(old(Contents()), uri)
    {
      hide Chrono, Items, BucketOf, Total;
      var k := IndexOf(uri);
      if k.None? {
        return false;
      }
      var stamped, ordinal, after := Allocate(buckets, nextOrdinal);
      ItemsAgree(buckets, stamped);
      Uris(stamped);
      UsedItem(stamped, k.value, ordinal);
      TotalOfMoved(stamped, k.value);
      buckets := stamped[k.value := Stamped(stamped[k.value].item, ordinal)];
      nextOrdinal := after;
      found := true;
    }

    method MarkPartial()
      requires Valid()
      modifies this
      ensures Valid() && Contents() == old(Contents()).(partial := true)
    {
      partial := true;
    }

    method Clear()
      requires Valid()
      modifies this
      ensures Valid() && Contents() == EMPTY
    {
      buckets, retainedBytes, nextOrdinal, partial := [], 0, 1, false;
    }

    /** The diagnostics of a publication that are kept, and the heap they hold. */
    method Select(uri: string, published: seq<Diagnostic>) returns (kept: Kept)
      requires config.Valid()
      ensures kept == Retained(uri, published, config)
    {
      hide DiagnosticEstimate.Diagnostic.Accepted, DiagnosticEstimate.CostOf, Utf8.Length, Config.Base, Saturate;
      var base := config.Base(uri);
      kept := Kept([], 0);
      SaturateIsExact(base, 0, 0, 0);
      if Saturate(base) <= MAX_DIAGNOSTIC_RETAINED_BYTES {
        var inspected := Inspected(published);
        assert inspected[..0] == [];
        for i := 0 to |inspected|
          invariant kept == ConsiderAll(uri, inspected[..i], config)
        {
          var d := inspected[i];
          assert inspected[..i + 1][..i] == inspected[..i];
          if d.uri != uri {
            continue;
          }
          var heap := DiagnosticEstimate.HeapEstimate(d.body, config.limits, config.sizes);
          if heap.None? {
            continue;
          }
          SaturateIsExact(base, (|kept.diagnostics| + 1) * config.diagnosticSize, kept.heap, heap.value);
          var slots := Saturate((|kept.diagnostics| + 1) * config.diagnosticSize);
          var projected := Saturate(Saturate(Saturate(base + slots) + kept.heap) + heap.value);
          if projected <= MAX_DIAGNOSTIC_RETAINED_BYTES {
            kept := Kept(kept.diagnostics + [d], Saturate(kept.heap + heap.value));
          }
        }
        assert inspected[..|inspected|] == inspected;
      }
    }

    /** Replaces what is held for a URI, evicting the oldest other buckets as needed. */
    method ReplaceDiagnostics(uri: string, published: seq<Diagnostic>) returns (report: Report)
      requires Valid()
      modifies this
      ensures Valid() && Contents() == Replace(old(Contents()), uri, published, config)
      ensures report == ReportOf(old(Contents()), uri, published, config)
    {
      hide Chrono, Retained, Total, BucketOf;
      var received := |published|;
      if !config.isLocal(uri) {
        partial := true;
        return Report(received, 0, received, received != 0, 0, 0, true);
      }
      var _ := Purge(uri);
      if published == [] {
        return Report(received, 0, 0, false, 0, 0, partial);
      }
      PurgedIsGone(old(buckets), uri);
      var kept := Select(uri, published);
      RetainedIsPublished(uri, published, config);
      var retained := |kept.diagnostics|;
      var dropped := SaturatingMinus(received, retained);
      if dropped != 0 {
        partial := true;
      }
      if kept.diagnostics == [] {
        NoDiagnostics(Purged(old(Contents()).buckets, uri));
        return Report(received, 0, dropped, dropped != 0, 0, 0, partial);
      }
      var evictedBuckets, evictedDiagnostics := AddBucket(Bucket(uri, kept.diagnostics, Estimate(uri, kept, config)));
      report := Report(received, retained, dropped, dropped != 0, evictedBuckets, evictedDiagnostics, partial);
    }

    method AddBucket(bucket: Bucket) returns (evictedBuckets: nat, evictedDiagnostics: nat)
      requires Valid() && bucket.estimate <= MAX_DIAGNOSTIC_RETAINED_BYTES
      requires BucketOf(Contents().buckets, bucket.uri).None?
      modifies this
      ensures Valid()
      ensures var before := old(Contents());
              && evictedBuckets == Evictions(before.buckets, bucket.estimate)
              && evictedDiagnostics == Diagnostics(before.buckets[..evictedBuckets])
              && Contents() == View(before.buckets[evictedBuckets..] + [bucket], before.partial || evictedBuckets > 0)
    {
      hide Chrono, Total, BucketOf, Items, Evictions, Diagnostics;
      evictedBuckets, evictedDiagnostics := MakeRoom(bucket.estimate, bucket.uri);
      if evictedBuckets != 0 {
        partial := true;
      }
      NoneStored(buckets, bucket.uri);
      TotalOfMore(Chrono(buckets), bucket);
      var stamped, ordinal, after := Allocate(buckets, nextOrdinal);
      ItemsAgree(buckets, stamped);
      AddedLast(stamped, bucket, ordinal);
      retainedBytes := retainedBytes + bucket.estimate;
      buckets, nextOrdinal := stamped + [Stamped(bucket, ordinal)], after;
    }

    /** Evicts the oldest buckets until one of `incoming` bytes fits; there is always one left to evict. */
    method MakeRoom(incoming: nat, ghost uri: string) returns (evictedBuckets: nat, evictedDiagnostics: nat)
      requires Valid() && incoming <= MAX_DIAGNOSTIC_RETAINED_BYTES && BucketOf(Contents().buckets, uri).None?
      modifies this
      ensures Valid() && partial == old(partial) && Room(Contents().buckets, incoming)
      ensures BucketOf(Contents().buckets, uri).None?
      ensures evictedBuckets == Evictions(old(Contents()).buckets, incoming)
      ensures evictedDiagnostics == Diagnostics(old(Contents()).buckets[..evictedBuckets])
      ensures Contents().buckets == old(Contents()).buckets[evictedBuckets..]
    {
      hide Chrono, Total, BucketOf, Items, Diagnostics, Evictions, Sorted;
      evictedBuckets, evictedDiagnostics := 0, 0;
      ghost var before := Contents();
      assert before.buckets[0..] == before.buckets;
      NoDiagnostics(before.buckets);
      while |buckets| >= MAX_DIAGNOSTIC_URI_BUCKETS || retainedBytes + incoming > MAX_DIAGNOSTIC_RETAINED_BYTES
        invariant Valid() && partial == before.partial
        invariant evictedBuckets <= |before.buckets| && Contents().buckets == before.buckets[evictedBuckets..]
        invariant evictedBuckets + Evictions(Contents().buckets, incoming) == Evictions(before.buckets, incoming)
        invariant evictedDiagnostics == Diagnostics(before.buckets[..evictedBuckets])
        invariant BucketOf(Contents().buckets, uri).None?
        decreases |buckets|
      {
        TotalOfNone();
        EvictOne(Contents().buckets, incoming);
        var evicted := RemoveLru();
        assert evicted.Some?;
        if evicted.None? {
          break;
        }
        DiagnosticsOfMore(before.buckets, evictedBuckets);
        evictedBuckets := evictedBuckets + 1;
        evictedDiagnostics := evictedDiagnostics + |evicted.value.diagnostics|;
      }
      EvictOne(Contents().buckets, incoming);
    }
  }

  lemma EvictOne(buckets: seq<Bucket>, incoming: nat)
    ensures Room(buckets, incoming) ==> Evictions(buckets, incoming) == 0
    ensures !Room(buckets, incoming) && buckets != [] ==>
              Evictions(buckets, incoming) == 1 + Evictions(buckets[1..], incoming)
  {
  }

  // ---------------------------------------------------------------------------
  // Buckets in storage and in the list
  // ---------------------------------------------------------------------------

  /** Saturation does not show below the budget. */
  lemma SaturateIsExact(a: nat, b: nat, c: nat, d: nat)
    ensures Saturate(a) <= MAX_DIAGNOSTIC_RETAINED_BYTES <==> a <= MAX_DIAGNOSTIC_RETAINED_BYTES
    ensures Saturate(Saturate(Saturate(a + Saturate(b)) + c) + d) <= MAX_DIAGNOSTIC_RETAINED_BYTES
       <==> a + b + c + d <= MAX_DIAGNOSTIC_RETAINED_BYTES
    ensures a + b + c + d <= MAX_DIAGNOSTIC_RETAINED_BYTES ==> Saturate(c + d) == c + d
  {
  }

  lemma Uris(s: seq<Stamped<Bucket>>)
    requires UniqueUris(s)
    ensures DistinctItems(s)
  {
  }

  lemma ItemIsThere(s: seq<Stamped<Bucket>>, k: nat)
    requires k < |s|
    ensures s[k].item in Items(s)
  {
    assert Items(s)[k] == s[k].item;
  }

  lemma ItemsAgree(s: seq<Stamped<Bucket>>, t: seq<Stamped<Bucket>>)
    requires Items(s) == Items(t)
    ensures |s| == |t| && forall i | 0 <= i < |s| :: s[i].item == t[i].item
  {
    assert forall i | 0 <= i < |s| :: Items(s)[i] == Items(t)[i];
  }

  lemma FewerUris(s: seq<Stamped<Bucket>>, k: nat)
    requires UniqueUris(s) && k < |s|
    ensures UniqueUris(RemoveAt(s, k))
  {
    var rest := RemoveAt(s, k);
    assert forall i | 0 <= i < |rest| :: rest[i] == s[if i < k then i else i + 1];
  }

  lemma FoundBucket(s: seq<Stamped<Bucket>>, i: nat)
    requires Distinct(s) && UniqueUris(s) && i < |s|
    ensures BucketOf(Chrono(s), s[i].item.uri) == Some(s[i].item)
  {
    hide Chrono;
    Uris(s);
    ChronoIsDistinct(s);
    assert Items(s)[i] in Chrono(s);
    var b := BucketOf(Chrono(s), s[i].item.uri).value;
    assert b in Items(s);
  }

  lemma NoBucket(s: seq<Stamped<Bucket>>, uri: string)
    requires Distinct(s) && UniqueUris(s) && forall j | 0 <= j < |s| :: s[j].item.uri != uri
    ensures BucketOf(Chrono(s), uri) == None
  {
    hide Chrono;
    Uris(s);
    ChronoIsDistinct(s);
  }

  lemma NoneStored(s: seq<Stamped<Bucket>>, uri: string)
    requires Distinct(s) && UniqueUris(s) && BucketOf(Chrono(s), uri).None?
    ensures forall j | 0 <= j < |s| :: s[j].item.uri != uri
  {
    hide Chrono;
    Uris(s);
    ChronoIsDistinct(s);
    assert forall i | 0 <= i < |s| :: Items(s)[i] in Chrono(s);
  }

  lemma PurgedIsGone(s: seq<Stamped<Bucket>>, uri: string)
    requires Distinct(s) && UniqueUris(s)
    ensures BucketOf(Purged(Chrono(s), uri), uri).None?
  {
    hide Chrono;
    Uris(s);
    ChronoIsDistinct(s);
    var purged := Purged(Chrono(s), uri);
    if BucketOf(Chrono(s), uri).Some? {
      var b := BucketOf(Chrono(s), uri).value;
      forall c | c in purged ensures c.uri != uri {
        assert c in Items(s) && b in Items(s);
      }
    }
  }

  lemma TotalOfNone()
    ensures Total([]) == 0
  {
  }

  lemma TotalOfMore(buckets: seq<Bucket>, b: Bucket)
    ensures Total(buckets + [b]) == Total(buckets) + b.estimate
  {
    assert (buckets + [b])[..|buckets|] == buckets;
  }

  lemma {:induction false} TotalWithout(buckets: seq<Bucket>, b: Bucket)
    requires b in buckets && forall i, j | 0 <= i < j < |buckets| :: buckets[i] != buckets[j]
    ensures Total(Without(buckets, b)) + b.estimate == Total(buckets)
  {
    var before, last := buckets[..|buckets| - 1], buckets[|buckets| - 1];
    if last == b {
      NothingToDrop(before, b);
      assert before + [] == before;
    } else {
      TotalWithout(before, b);
      TotalOfMore(Without(before, b), last);
    }
  }

  lemma TotalOfMoved(s: seq<Stamped<Bucket>>, k: nat)
    requires Distinct(s) && DistinctItems(s) && k < |s|
    ensures Total(Without(Chrono(s), s[k].item) + [s[k].item]) == Total(Chrono(s))
  {
    hide Chrono, Items, Total;
    ChronoIsDistinct(s);
    ItemIsThere(s, k);
    TotalWithout(Chrono(s), s[k].item);
    TotalOfMore(Without(Chrono(s), s[k].item), s[k].item);
  }

  lemma {:induction false} NothingToDrop(buckets: seq<Bucket>, b: Bucket)
    requires b !in buckets
    ensures Without(buckets, b) == buckets
  {
    if buckets != [] {
      NothingToDrop(buckets[..|buckets| - 1], b);
    }
  }

  lemma NoDiagnostics(buckets: seq<Bucket>)
    ensures Diagnostics(buckets[..0]) == 0
  {
  }

  lemma DiagnosticsOfMore(buckets: seq<Bucket>, k: nat)
    requires k < |buckets|
    ensures Diagnostics(buckets[..k + 1]) == Diagnostics(buckets[..k]) + |buckets[k].diagnostics|
  {
    assert buckets[..k + 1][..k] == buckets[..k];
  }

  // ---------------------------------------------------------------------------
  // Histories
  // ---------------------------------------------------------------------------

  datatype Operation =
    | Publication(uri: string, published: seq<Diagnostic>)
    | Purging(uri: string)
    | Use(uri: string)
    | UpstreamLoss
    | Clearing

  function Step(v: View, op: Operation, config: Config): View {
    match op
    case Publication(uri, published) => Replace(v, uri, published, config)
    case Purging(uri) => v.(buckets := Purged(v.buckets, uri))
    case Use(uri) => MarkUsed(v, uri)
    case UpstreamLoss => v.(partial := true)
    case Clearing => EMPTY
  }

  function Run(log: seq<Operation>, config: Config): View {
    if log == [] then EMPTY else Step(Run(log[..|log| - 1], config), log[|log| - 1], config)
  }

  type Publications = map<string, seq<Diagnostic>>

  /** The latest publication of every URI since the last clearing, without any bound. */
  function Latest(log: seq<Operation>): Publications {
    if log == [] then map[] else LatestStep(Latest(log[..|log| - 1]), log[|log| - 1])
  }

  function LatestStep(latest: Publications, op: Operation): Publications {
    match op
    case Publication(uri, published) => if published == [] then latest - {uri} else latest[uri := published]
    case Purging(uri) => latest - {uri}
    case Clearing => map[]
    case _ => latest
  }

  ghost predicate Unique(buckets: seq<Bucket>) {
    forall i, j | 0 <= i < j < |buckets| :: buckets[i].uri != buckets[j].uri
  }

  /** Every bucket is an honest part of the latest publication of its URI. */
  ghost predicate Honest(b: Bucket, latest: Publications, config: Config) {
    && config.isLocal(b.uri)
    && b.uri in latest
    && b.diagnostics != [] && |b.diagnostics| <= MAX_DIAGNOSTICS_PER_URI
    && Subsequence(b.diagnostics, latest[b.uri])
    && forall d <- b.diagnostics :: d.uri == b.uri
  }

  ghost predicate Exact(v: View, latest: Publications) {
    forall uri <- latest :: exists b <- v.buckets :: b.uri == uri && b.diagnostics == latest[uri]
  }

  ghost predicate Faithful(v: View, latest: Publications, config: Config) {
    && Unique(v.buckets)
    && (forall b <- v.buckets :: Honest(b, latest, config))
    && (!v.partial ==> Exact(v, latest))
  }

  lemma {:induction false} WithoutIsUnique(buckets: seq<Bucket>, b: Bucket)
    requires Unique(buckets)
    ensures Unique(Without(buckets, b))
  {
    if buckets != [] {
      var before := buckets[..|buckets| - 1];
      WithoutIsUnique(before, b);
      assert forall i | 0 <= i < |Without(before, b)| :: Without(before, b)[i] in before;
    }
  }

  lemma UniqueMembers(buckets: seq<Bucket>)
    requires Unique(buckets)
    ensures forall b, c | b in buckets && c in buckets && b.uri == c.uri :: b == c
  {
  }

  lemma PurgedMembers(buckets: seq<Bucket>, uri: string)
    requires Unique(buckets)
    ensures Unique(Purged(buckets, uri))
    ensures forall b :: b in Purged(buckets, uri) <==> b in buckets && b.uri != uri
  {
    hide Without, BucketOf;
    UniqueMembers(buckets);
    if BucketOf(buckets, uri).Some? {
      WithoutIsUnique(buckets, BucketOf(buckets, uri).value);
    }
  }

  lemma PurgeIsFaithful(v: View, latest: Publications, uri: string, config: Config)
    requires Faithful(v, latest, config)
    ensures Faithful(v.(buckets := Purged(v.buckets, uri)), latest - {uri}, config)
  {
    hide Purged;
    PurgedMembers(v.buckets, uri);
  }

  lemma UseIsFaithful(v: View, latest: Publications, uri: string, config: Config)
    requires Faithful(v, latest, config)
    ensures Faithful(MarkUsed(v, uri), latest, config)
  {
    hide Without, BucketOf, Honest;
    if BucketOf(v.buckets, uri).Some? {
      var b := BucketOf(v.buckets, uri).value;
      WithoutIsUnique(v.buckets, b);
      UniqueMembers(v.buckets);
      var rest := Without(v.buckets, b);
      assert forall i | 0 <= i < |rest| :: rest[i] in v.buckets && rest[i] != b;
      assert forall c :: c in rest + [b] <==> c in v.buckets;
    }
  }

  lemma SuffixMembers(buckets: seq<Bucket>, k: nat)
    requires k <= |buckets| && Unique(buckets)
    ensures Unique(buckets[k..]) && forall b <- buckets[k..] :: b in buckets
  {
  }

  /** Adding the bucket of a publication after the old one has been purged. */
  lemma AdmitIsFaithful(v: View, latest: Publications, uri: string, published: seq<Diagnostic>, config: Config)
    requires Faithful(v, latest, config) && uri !in latest && published != [] && config.isLocal(uri)
    ensures Faithful(Admit(v, uri, |published|, Retained(uri, published, config), config),
                     latest[uri := published], config)
  {
    hide Retained, Subsequence, Evictions, Estimate;
    RetainedIsPublished(uri, published, config);
    var kept := Retained(uri, published, config);
    SubsequenceIsShorter(kept.diagnostics, published);
    HonestStay(v, latest, uri, published, config);
    if kept.diagnostics != [] {
      var bucket := Bucket(uri, kept.diagnostics, Estimate(uri, kept, config));
      assert Honest(bucket, latest[uri := published], config);
      hide Honest;
      BucketIsFaithful(v, latest, published, bucket, Evictions(v.buckets, bucket.estimate),
                       v.partial || |kept.diagnostics| < |published|, config);
    }
  }

  lemma HonestStay(v: View, latest: Publications, uri: string, published: seq<Diagnostic>, config: Config)
    requires Faithful(v, latest, config) && uri !in latest
    ensures forall b <- v.buckets :: b.uri != uri && Honest(b, latest[uri := published], config)
  {
    hide Subsequence;
  }

  lemma BucketIsFaithful(
      v: View, latest: Publications, published: seq<Diagnostic>, bucket: Bucket, k: nat, partial: bool, config: Config)
    requires Unique(v.buckets) && (!v.partial ==> Exact(v, latest)) && k <= |v.buckets|
    requires forall b <- v.buckets :: b.uri != bucket.uri && Honest(b, latest[bucket.uri := published], config)
    requires Honest(bucket, latest[bucket.uri := published], config)
    requires !partial ==> !v.partial && bucket.diagnostics == published
    ensures Faithful(View(v.buckets[k..] + [bucket], partial || k > 0), latest[bucket.uri := published], config)
  {
    hide Honest;
    SuffixMembers(v.buckets, k);
    var buckets := v.buckets[k..] + [bucket];
    assert bucket in buckets;
    assert forall i | 0 <= i < |v.buckets[k..]| :: v.buckets[k..][i] in v.buckets;
    if k == 0 {
      assert forall b <- v.buckets :: b in buckets;
    }
  }

  lemma PublicationIsFaithful(v: View, latest: Publications, uri: string, published: seq<Diagnostic>, config: Config)
    requires Faithful(v, latest, config)
    ensures Faithful(Replace(v, uri, published, config), LatestStep(latest, Publication(uri, published)), config)
  {
    hide Purged, Admit, Subsequence, Retained;
    if config.isLocal(uri) {
      PurgeIsFaithful(v, latest, uri, config);
      if published != [] {
        AdmitIsFaithful(View(Purged(v.buckets, uri), v.partial), latest - {uri}, uri, published, config);
        assert (latest - {uri})[uri := published] == latest[uri := published];
      }
    }
  }

  /** In every history the cache is faithful to the latest publications, and exact while it is complete. */
  lemma {:induction false} FaithfulOnRuns(log: seq<Operation>, config: Config)
    ensures Faithful(Run(log, config), Latest(log), config)
  {
    hide Purged, Replace, MarkUsed, Honest;
    if log != [] {
      var before, op := log[..|log| - 1], log[|log| - 1];
      FaithfulOnRuns(before, config);
      var v, latest := Run(before, config), Latest(before);
      match op
      case Publication(uri, published) => PublicationIsFaithful(v, latest, uri, published, config);
      case Purging(uri) => PurgeIsFaithful(v, latest, uri, config);
      case Use(uri) => UseIsFaithful(v, latest, uri, config);
      case UpstreamLoss =>
      case Clearing =>
    }
  }

  /** The promise of `Complete`: reading any URI gives its latest publication, whole. */
  lemma CompleteIsExact(log: seq<Operation>, uri: string, config: Config)
    requires !Run(log, config).partial
    ensures uri in Latest(log) <==> BucketOf(Run(log, config).buckets, uri).Some?
    ensures uri in Latest(log) ==> BucketOf(Run(log, config).buckets, uri).value.diagnostics == Latest(log)[uri]
  {
    hide Run, Latest, Subsequence, BucketOf;
    FaithfulOnRuns(log, config);
    UniqueMembers(Run(log, config).buckets);
  }

  /** The promise of `Partial`: what is read is part of the latest publication, never of an older one. */
  lemma PartialIsHonest(log: seq<Operation>, uri: string, config: Config)
    requires BucketOf(Run(log, config).buckets, uri).Some?
    ensures var diagnostics := BucketOf(Run(log, config).buckets, uri).value.diagnostics;
            && uri in Latest(log)
            && diagnostics != [] && Subsequence(diagnostics, Latest(log)[uri])
            && forall d <- diagnostics :: d.uri == uri
  {
    hide Run, Latest, Subsequence, BucketOf;
    FaithfulOnRuns(log, config);
  }

  /** Only clearing makes a partial cache complete again. */
  lemma PartialPersists(v: View, op: Operation, config: Config)
    requires v.partial && !op.Clearing?
    ensures Step(v, op, config).partial
  {
    hide Purged, Retained, BucketOf;
  }

  // ---------------------------------------------------------------------------
  // Recency, read off the history
  // ---------------------------------------------------------------------------

  predicate Holds(v: View, uri: string) {
    exists i | 0 <= i < |v.buckets| :: v.buckets[i].uri == uri
  }

  /** An operation uses the bucket of a URI: one published of which something was kept, or one held that is marked. */
  predicate Uses(v: View, op: Operation, uri: string, config: Config) {
    match op
    case Publication(published, _) =>
      published == uri && config.isLocal(uri) && Holds(Step(v, op, config), uri)
    case Use(used) => used == uri && Holds(v, uri)
    case _ => false
  }

  /** The number of the last operation of a history that used the bucket; 0 if none did. */
  function LastUse(log: seq<Operation>, uri: string, config: Config): nat {
    if log == [] then 0
    else if Uses(Run(log[..|log| - 1], config), log[|log| - 1], uri, config) then |log|
    else LastUse(log[..|log| - 1], uri, config)
  }

  /** Each bucket was used later than those before it. */
  ghost predicate ByUse(buckets: seq<Bucket>, log: seq<Operation>, config: Config) {
    && (forall i | 0 <= i < |buckets| :: 0 < LastUse(log, buckets[i].uri, config) <= |log|)
    && (forall i, j | 0 <= i < j < |buckets| ::
          LastUse(log, buckets[i].uri, config) < LastUse(log, buckets[j].uri, config))
  }

  lemma {:induction false} LastUseBound(log: seq<Operation>, uri: string, config: Config)
    ensures LastUse(log, uri, config) <= |log|
  {
    hide Uses, Run;
    if log != [] {
      LastUseBound(log[..|log| - 1], uri, config);
    }
  }

  lemma FrontByUse(buckets: seq<Bucket>, log: seq<Operation>, config: Config)
    requires ByUse(buckets, log, config) && buckets != []
    ensures var before, last := buckets[..|buckets| - 1], buckets[|buckets| - 1];
            && ByUse(before, log, config) && 0 < LastUse(log, last.uri, config) <= |log|
            && forall b <- before :: LastUse(log, b.uri, config) < LastUse(log, last.uri, config)
  {
    hide LastUse;
  }

  lemma BackByUse(buckets: seq<Bucket>, b: Bucket, log: seq<Operation>, config: Config)
    requires ByUse(buckets, log, config) && 0 < LastUse(log, b.uri, config) <= |log|
    requires forall c <- buckets :: LastUse(log, c.uri, config) < LastUse(log, b.uri, config)
    ensures ByUse(buckets + [b], log, config)
  {
    hide LastUse;
    var all := buckets + [b];
    forall i, j | 0 <= i < j < |all|
      ensures LastUse(log, all[i].uri, config) < LastUse(log, all[j].uri, config)
    {
      assert all[i] == buckets[i] && buckets[i] in buckets;
      assert j < |buckets| ==> all[j] == buckets[j];
    }
  }

  lemma {:induction false} WithoutByUse(buckets: seq<Bucket>, b: Bucket, log: seq<Operation>, config: Config)
    requires ByUse(buckets, log, config)
    ensures ByUse(Without(buckets, b), log, config)
  {
    hide LastUse, ByUse;
    if buckets != [] {
      var before, last := buckets[..|buckets| - 1], buckets[|buckets| - 1];
      FrontByUse(buckets, log, config);
      WithoutByUse(before, b, log, config);
      BackByUse(Without(before, b), last, log, config);
      assert Without(before, b) + [] == Without(before, b);
    } else {
      assert Without(buckets, b) == buckets;
    }
  }

  lemma SuffixByUse(buckets: seq<Bucket>, k: nat, log: seq<Operation>, config: Config)
    requires ByUse(buckets, log, config) && k <= |buckets|
    ensures ByUse(buckets[k..], log, config)
  {
    hide LastUse;
  }

  /** An operation that uses none of these keeps their order. */
  lemma UnusedByUse(buckets: seq<Bucket>, log: seq<Operation>, op: Operation, config: Config)
    requires ByUse(buckets, log, config) && forall b <- buckets :: !Uses(Run(log, config), op, b.uri, config)
    ensures ByUse(buckets, log + [op], config)
  {
    hide Uses, Run;
    assert (log + [op])[..|log|] == log;
    assert forall i | 0 <= i < |buckets| :: buckets[i] in buckets;
  }

  /** The bucket an operation uses goes to the back. */
  lemma UsedByUse(buckets: seq<Bucket>, b: Bucket, log: seq<Operation>, op: Operation, config: Config)
    requires ByUse(buckets, log, config) && forall c <- buckets :: !Uses(Run(log, config), op, c.uri, config)
    requires Uses(Run(log, config), op, b.uri, config)
    ensures ByUse(buckets + [b], log + [op], config)
  {
    hide Uses, Run, ByUse;
    UnusedByUse(buckets, log, op, config);
    assert (log + [op])[..|log|] == log;
    forall c <- buckets ensures LastUse(log + [op], c.uri, config) < |log| + 1 {
      LastUseBound(log, c.uri, config);
    }
    BackByUse(buckets, b, log + [op], config);
  }

  lemma HoldsMeans(v: View, uri: string)
    ensures Holds(v, uri) <==> BucketOf(v.buckets, uri).Some?
  {
    hide BucketOf;
    if BucketOf(v.buckets, uri).Some? {
      var b := BucketOf(v.buckets, uri).value;
      assert exists i | 0 <= i < |v.buckets| :: v.buckets[i] == b;
    }
    if Holds(v, uri) {
      var i :| 0 <= i < |v.buckets| && v.buckets[i].uri == uri;
      assert v.buckets[i] in v.buckets;
    }
  }

  lemma PurgedByUse(buckets: seq<Bucket>, uri: string, log: seq<Operation>, config: Config)
    requires ByUse(buckets, log, config) && Unique(buckets)
    ensures ByUse(Purged(buckets, uri), log, config) && forall b <- Purged(buckets, uri) :: b.uri != uri
  {
    hide ByUse, BucketOf, Without;
    PurgedMembers(buckets, uri);
    if BucketOf(buckets, uri).Some? {
      WithoutByUse(buckets, BucketOf(buckets, uri).value, log, config);
    }
  }

  lemma MarkedByUse(log: seq<Operation>, uri: string, config: Config)
    requires ByUse(Run(log, config).buckets, log, config) && Unique(Run(log, config).buckets)
    ensures ByUse(MarkUsed(Run(log, config), uri).buckets, log + [Use(uri)], config)
  {
    hide Run, LastUse, BucketOf, Without, ByUse;
    var v := Run(log, config);
    HoldsMeans(v, uri);
    if Holds(v, uri) {
      var b := BucketOf(v.buckets, uri).value;
      WithoutByUse(v.buckets, b, log, config);
      UniqueMembers(v.buckets);
      hide Holds;
      UsedByUse(Without(v.buckets, b), b, log, Use(uri), config);
    } else {
      hide Holds;
      UnusedByUse(v.buckets, log, Use(uri), config);
    }
  }

  lemma PublishedByUse(log: seq<Operation>, uri: string, published: seq<Diagnostic>, config: Config)
    requires ByUse(Run(log, config).buckets, log, config) && Unique(Run(log, config).buckets)
    ensures ByUse(Replace(Run(log, config), uri, published, config).buckets,
                  log + [Publication(uri, published)], config)
  {
    hide Run, LastUse, BucketOf, Purged, ByUse, Retained, Evictions, Estimate, Holds;
    var v, op := Run(log, config), Publication(uri, published);
    if !config.isLocal(uri) {
      UnusedByUse(v.buckets, log, op, config);
    } else {
      PurgedByUse(v.buckets, uri, log, config);
      var purged := Purged(v.buckets, uri);
      var t := Replace(v, uri, published, config);
      var kept := Retained(uri, published, config);
      if published == [] || kept.diagnostics == [] {
        UnusedByUse(purged, log, op, config);
      } else {
        var bucket := Bucket(uri, kept.diagnostics, Estimate(uri, kept, config));
        var k := Evictions(purged, bucket.estimate);
        SuffixByUse(purged, k, log, config);
        HeldLast(t, purged[k..], bucket);
        assert forall b <- purged[k..] :: b in purged;
        UsedByUse(purged[k..], bucket, log, op, config);
      }
    }
  }

  lemma HeldLast(v: View, buckets: seq<Bucket>, b: Bucket)
    requires v.buckets == buckets + [b]
    ensures Holds(v, b.uri)
  {
    assert v.buckets[|buckets|] == b;
  }

  /**
    In every history the buckets stand in the order of their last use, the
    publication or the marking of them: so those that give way are the ones
    whose last use is longest ago.
   */
  lemma {:induction false} OrderedByUse(log: seq<Operation>, config: Config)
    ensures ByUse(Run(log, config).buckets, log, config)
  {
    hide ByUse, Replace, MarkUsed, Honest, Uses, Purged;
    if log == [] {
      NoneByUse(log, config);
    } else {
      var before, op := log[..|log| - 1], log[|log| - 1];
      OrderedByUse(before, config);
      FaithfulOnRuns(before, config);
      var v := Run(before, config);
      assert log == before + [op];
      match op
      case Publication(uri, published) => PublishedByUse(before, uri, published, config);
      case Purging(uri) =>
        PurgedByUse(v.buckets, uri, before, config);
        QuietByUse(Purged(v.buckets, uri), before, op, config);
      case Use(uri) => MarkedByUse(before, uri, config);
      case UpstreamLoss => QuietByUse(v.buckets, before, op, config);
      case Clearing => NoneByUse(log, config);
    }
  }

  lemma NoneByUse(log: seq<Operation>, config: Config)
    ensures ByUse([], log, config)
  {
  }

  lemma QuietByUse(buckets: seq<Bucket>, log: seq<Operation>, op: Operation, config: Config)
    requires ByUse(buckets, log, config) && !op.Publication? && !op.Use?
    ensures ByUse(buckets, log + [op], config)
  {
    hide ByUse;
    UnusedByUse(buckets, log, op, config);
  }

  // ---------------------------------------------------------------------------
  // What a report counts
  // ---------------------------------------------------------------------------

  lemma {:induction false} DiagnosticsInTwo(a: seq<Bucket>, b: seq<Bucket>)
    ensures Diagnostics(a + b) == Diagnostics(a) + Diagnostics(b)
    decreases |b|
  {
    if b == [] {
      assert a + b == a;
    } else {
      assert (a + b)[..|a + b| - 1] == a + b[..|b| - 1];
      DiagnosticsInTwo(a, b[..|b| - 1]);
    }
  }

  /**
    The report of a publication adds up: what was received was retained or
    dropped, and the buckets of other URIs and their diagnostics are still
    there or evicted, the oldest first.  What is retained is in the bucket of
    the URI, which is gone if nothing is; a URI that names no local file costs
    everything and touches no bucket.
   */
  lemma ReportAddsUp(v: View, uri: string, published: seq<Diagnostic>, config: Config)
    requires Unique(v.buckets)
    ensures var r, t := ReportOf(v, uri, published, config), Replace(v, uri, published, config);
            var others := if config.isLocal(uri) then Purged(v.buckets, uri) else v.buckets;
            && r.received == |published| == r.retained + r.dropped
            && (r.truncated <==> r.dropped > 0) && r.partial == t.partial
            && |others| + (if r.retained > 0 then 1 else 0) == |t.buckets| + r.evictedBuckets
            && Diagnostics(others) + r.retained == Diagnostics(t.buckets) + r.evictedDiagnostics
            && r.evictedBuckets <= |others| && others[r.evictedBuckets..] <= t.buckets
            && (r.retained > 0 ==> t.buckets != [] && t.buckets[|t.buckets| - 1].uri == uri
                                   && |t.buckets[|t.buckets| - 1].diagnostics| == r.retained)
            && (r.retained == 0 ==> t.buckets == others)
            && (!config.isLocal(uri) ==> r.retained == 0 && t.partial)
  {
    hide Purged, Retained, Evictions, Estimate, Subsequence, Diagnostics;
    RetainedIsPublished(uri, published, config);
    var kept, purged := Retained(uri, published, config), Purged(v.buckets, uri);
    SubsequenceIsShorter(kept.diagnostics, published);
    NoDiagnostics(purged);
    assert purged[0..] == purged;
    if config.isLocal(uri) && kept.diagnostics != [] && published != [] {
      var bucket := Bucket(uri, kept.diagnostics, Estimate(uri, kept, config));
      var k := Evictions(purged, bucket.estimate);
      assert purged == purged[..k] + purged[k..];
      DiagnosticsInTwo(purged[..k], purged[k..]);
      DiagnosticsInTwo(purged[k..], [bucket]);
      OneBucket(bucket);
    } else {
      if published == [] {
        NothingRetained(uri, published, config);
      }
    }
  }

  lemma OneBucket(b: Bucket)
    ensures Diagnostics([b]) == |b.diagnostics|
  {
    assert [b][..0] == [];
  }

  lemma NothingRetained(uri: string, published: seq<Diagnostic>, config: Config)
    requires published == []
    ensures Retained(uri, published, config).diagnostics == []
  {
  }

  // ---------------------------------------------------------------------------
  // What is left out
  // ---------------------------------------------------------------------------

  /** What comes first is considered first: more of a publication only adds to what is kept. */
  lemma {:induction false} KeptGrows(uri: string, published: seq<Diagnostic>, n: nat, config: Config)
    requires n <= |published|
    ensures var few, all := ConsiderAll(uri, published[..n], config), ConsiderAll(uri, published, config);
            few.diagnostics <= all.diagnostics && few.heap <= all.heap
    decreases |published|
  {
    if n == |published| {
      assert published[..n] == published;
    } else {
      assert published[..|published| - 1][..n] == published[..n];
      KeptGrows(uri, published[..|published| - 1], n, config);
    }
  }

  /** What a diagnostic owns beside its own size: its strings and its raw JSON. */
  function OwnedBy(d: Diagnostic, config: Config): nat {
    d.body.Strings() + DiagnosticEstimate.Owned(d.body.raw, config.sizes)
  }

  function OwnedByAll(diagnostics: seq<Diagnostic>, config: Config): nat {
    if diagnostics == [] then 0
    else
      var last := diagnostics[|diagnostics| - 1];
      OwnedByAll(diagnostics[..|diagnostics| - 1], config) + config.diagnosticSize + OwnedBy(last, config)
  }

  /** The estimate of a bucket covers its URI and everything its diagnostics own, so the budget bounds what is kept. */
  lemma {:induction false} BudgetCovers(uri: string, published: seq<Diagnostic>, config: Config)
    ensures var kept := ConsiderAll(uri, published, config);
            Utf8.Length(uri) + config.bucketSize + OwnedByAll(kept.diagnostics, config) <= Estimate(uri, kept, config)
  {
    hide DiagnosticEstimate.Owned, DiagnosticEstimate.CostOf, DiagnosticEstimate.Diagnostic.Accepted, Utf8.Length;
    if published != [] {
      var before, d := published[..|published| - 1], published[|published| - 1];
      var few, all := ConsiderAll(uri, before, config), ConsiderAll(uri, published, config);
      BudgetCovers(uri, before, config);
      if all != few {
        DiagnosticEstimate.EstimateCovers(d.body.raw, config.sizes);
        assert all.diagnostics[..|all.diagnostics| - 1] == few.diagnostics;
        OneMoreSize(|few.diagnostics|, config.diagnosticSize);
      }
    }
  }

  lemma OneMoreSize(n: nat, size: nat)
    ensures (n + 1) * size == n * size + size
  {
  }

  /** Of a long publication only the front is considered. */
  lemma OnlyFrontConsidered(uri: string, published: seq<Diagnostic>, config: Config)
    requires |published| > MAX_DIAGNOSTICS_PER_URI
    ensures Retained(uri, published, config) == Retained(uri, published[..MAX_DIAGNOSTICS_PER_URI], config)
  {
    hide ConsiderAll;
  }

  /** There would have been no room for it, or it is of another file, or it has no estimate. */
  predicate Unfit(uri: string, kept: Kept, d: Diagnostic, config: Config) {
    || d.uri != uri || config.HeapOf(d).None?
    || Estimate(uri, Kept(kept.diagnostics + [d], kept.heap + config.HeapOf(d).value), config)
       > MAX_DIAGNOSTIC_RETAINED_BYTES
  }

  lemma UnfitStays(uri: string, few: Kept, all: Kept, d: Diagnostic, config: Config)
    requires Unfit(uri, few, d, config) && |few.diagnostics| <= |all.diagnostics| && few.heap <= all.heap
    ensures Unfit(uri, all, d, config)
  {
    hide Estimate, Config.HeapOf;
    if d.uri == uri && config.HeapOf(d).Some? {
      var heap := config.HeapOf(d).value;
      LargerEstimate(uri, Kept(few.diagnostics + [d], few.heap + heap), Kept(all.diagnostics + [d], all.heap + heap),
                     config);
    }
  }

  lemma LargerEstimate(uri: string, few: Kept, all: Kept, config: Config)
    requires |few.diagnostics| <= |all.diagnostics| && few.heap <= all.heap
    ensures Estimate(uri, few, config) <= Estimate(uri, all, config)
  {
    SizesGrow(|few.diagnostics|, |all.diagnostics|, config.diagnosticSize);
  }

  lemma SizesGrow(a: nat, b: nat, size: nat)
    requires a <= b
    ensures a * size <= b * size
  {
  }

  /** Whatever of the considered ones is not kept does not fit even beside the ones kept in the end. */
  lemma {:induction false} LeftOutIsUnfit(uri: string, published: seq<Diagnostic>, d: Diagnostic, config: Config)
    requires multiset(published)[d] > multiset(ConsiderAll(uri, published, config).diagnostics)[d]
    ensures Unfit(uri, ConsiderAll(uri, published, config), d, config)
  {
    hide Estimate;
    var before, last := published[..|published| - 1], published[|published| - 1];
    assert published == before + [last];
    var few, all := ConsiderAll(uri, before, config), ConsiderAll(uri, published, config);
    KeptGrows(uri, published, |published| - 1, config);
    if multiset(before)[d] > multiset(few.diagnostics)[d] {
      LeftOutIsUnfit(uri, before, d, config);
      UnfitStays(uri, few, all, d, config);
    }
  }

  // ---------------------------------------------------------------------------
  // What is not lost
  // ---------------------------------------------------------------------------

  /** Marking a bucket as used keeps every bucket. */
  lemma MarkingKeeps(v: View, uri: string)
    ensures forall b :: b in MarkUsed(v, uri).buckets <==> b in v.buckets
    ensures MarkUsed(v, uri).partial == v.partial
  {
    hide Without, BucketOf;
  }

  /** Not one bucket more than needed gives way to a publication. */
  lemma NoNeedlessEviction(v: View, uri: string, published: seq<Diagnostic>, config: Config)
    requires config.isLocal(uri) && ReportOf(v, uri, published, config).evictedBuckets > 0
    ensures var r, t := ReportOf(v, uri, published, config), Replace(v, uri, published, config);
            var others := Purged(v.buckets, uri);
            && t.buckets != [] && r.evictedBuckets <= |others|
            && t.buckets == others[r.evictedBuckets..] + [t.buckets[|t.buckets| - 1]]
            && !Room(others[r.evictedBuckets - 1..], t.buckets[|t.buckets| - 1].estimate)
  {
    hide Purged, Retained, Evictions, Estimate, Diagnostics, Room;
    var kept, purged := Retained(uri, published, config), Purged(v.buckets, uri);
    EstimateWithin(uri, published, config);
    EvictionsAreShortest(purged, Estimate(uri, kept, config));
  }

  lemma EstimateWithin(uri: string, published: seq<Diagnostic>, config: Config)
    ensures Retained(uri, published, config).diagnostics != [] ==>
              Estimate(uri, Retained(uri, published, config), config) <= MAX_DIAGNOSTIC_RETAINED_BYTES
  {
    hide Retained, Estimate;
    RetainedIsPublished(uri, published, config);
  }

  /**
    A cache is partial from a loss on until it is cleared, and not otherwise: an
    upstream loss, a URI of no local file, diagnostics dropped or buckets evicted.
   */
  lemma PartialIff(v: View, op: Operation, config: Config)
    ensures Step(v, op, config).partial
       <==> op.UpstreamLoss? || (v.partial && !op.Clearing?)
            || (op.Publication? && (!config.isLocal(op.uri)
                                    || var r := ReportOf(v, op.uri, op.published, config);
                                       r.dropped > 0 || r.evictedBuckets > 0))
  {
    hide Purged, Retained, BucketOf, Evictions, Estimate, Without, Diagnostics, Subsequence;
    if op.Publication? {
      RetainedIsPublished(op.uri, op.published, config);
      SubsequenceIsShorter(Retained(op.uri, op.published, config).diagnostics, op.published);
    }
  }
}
