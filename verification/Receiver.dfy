/** The receiver's side of one transfer, and what it learns from it. */
module Receiver {
  import opened Wrappers
  import opened Tarball
  import opened Digests
  import opened Storage
  import opened Prune
  import opened Stitch
  import opened Cache
  import opened Delta

  /** Every known digest is valid and cached with its true content. */
  ghost predicate Coherent(truth: string -> Bytes, known: set<string>, files: map<string, Bytes>) {
    forall d :: d in known ==> IsDigest(d) && HasTruth(truth, files, d)
  }

  /** An image whose digests are right: they describe t, also where t repeats a layer path, and
      digests and paths determine each other. */
  ghost predicate WellFormed(json: Json, truth: string -> Bytes, t: Tar, digests: seq<string>) {
    && Describes(json, truth, t, digests)
    && var layers := MainItemOf(json, t).value.layers;
    && OnePathPerDigest(layers, digests)
    && OneDigestPerPath(layers, digests)
    && LayersAre(truth, t, layers, digests)
  }

  /** Every entry stored under a layer path has the true content of that layer. */
  ghost predicate LayersAre(truth: string -> Bytes, t: Tar, layers: seq<string>, digests: seq<string>)
    requires |layers| == |digests|
  {
    forall e, i :: e in t && 0 <= i < |layers| && e.name == layers[i] ==> e.data == truth(digests[i])
  }

  /** The smallest image of interest is one: two different layers, a config and a manifest. */
  lemma MinimalImageIsWellFormed(json: Json, truth: string -> Bytes, t: Tar, p: string, q: string, d: string, e: string)
    requires |t| == 4 && t[0] == Entry(p, truth(d)) && t[1] == Entry(q, truth(e)) && t[3].name == MANIFEST
    requires d != e && p != q && t[2].name != p && t[2].name != q
    requires p != MANIFEST && q != MANIFEST && t[2].name != MANIFEST
    requires json.manifest(t[3].data) == Some([ManifestItem(t[2].name, [p, q])])
    ensures WellFormed(json, truth, t, [d, e])
  {
    var item := ManifestItem(t[2].name, [p, q]);
    ManifestComesLast(t[..3], t[3]);
    assert t[..3] + [t[3]] == t;
    SingleItemIsMain(json, t, item);
    LastIsLoaded(t, 0);
    LastIsLoaded(t, 1);
    TwoLayersAre(truth, t, p, q, d, e);
    TwoLayersDiffer(p, q, d, e);
  }

  lemma TwoLayersDiffer(p: string, q: string, d: string, e: string)
    requires p != q && d != e
    ensures OnePathPerDigest([p, q], [d, e]) && OneDigestPerPath([p, q], [d, e])
  {
  }

  lemma TwoLayersAre(truth: string -> Bytes, t: Tar, p: string, q: string, d: string, e: string)
    requires p != q && |t| == 4 && t[0] == Entry(p, truth(d)) && t[1] == Entry(q, truth(e))
    requires t[2].name != p && t[2].name != q && t[3].name != p && t[3].name != q
    ensures LayersAre(truth, t, [p, q], [d, e])
  {
    forall x, i | x in t && 0 <= i < 2 && x.name == [p, q][i] ensures x.data == truth([d, e][i]) {
      var k :| 0 <= k < 4 && t[k] == x;
    }
  }

  lemma SingleItemIsMain(json: Json, t: Tar, item: ManifestItem)
    requires ManifestOf(json, t) == Success([item]) && item.layers != []
    ensures MainItemOf(json, t) == Success(item)
  {
    assert IsFirstLongest([item], 0);
    FirstLongestIsUnique([item], 0, MainIndex([item]).value);
  }

  lemma ManifestComesLast(t: Tar, m: Entry)
    requires m.name == MANIFEST && forall i :: 0 <= i < |t| ==> t[i].name != MANIFEST
    ensures FirstNamed(t + [m], MANIFEST) == Some(m.data)
  {
    FirstNamedAppend(t, [m], MANIFEST);
  }

  /** A file no later entry replaces is loaded with that entry's data. */
  lemma LastIsLoaded(t: Tar, i: nat)
    requires IsLast(t, i)
    ensures t[i].name in Contents(t) && Contents(t)[t[i].name] == t[i].data
  {
    ContentsNames(t, i);
    var j := ContentsAt(t, t[i].name);
    assert i == j;
  }

  method PartitionLayers(layers: seq<string>, ledger: Ledger) returns (missing: seq<string>, owned: seq<string>)
    ensures missing == Outside(layers, ledger.known)
    ensures owned == Within(layers, ledger.known)
  {
    missing, owned := [], [];
    for i := 0 to |layers|
      invariant missing == Outside(layers[..i], ledger.known)
      invariant owned == Within(layers[..i], ledger.known)
    {
      assert layers[..i + 1][..i] == layers[..i];
      var has := ledger.HasLayer(layers[i]);
      if has {
        owned := owned + [layers[i]];
      } else {
        missing := missing + [layers[i]];
      }
    }
    assert layers[..|layers|] == layers;
  }

  /** Known digests and cached files after a rebuilt tarball is processed. */
  function Updated(json: Json, rebuilt: Tar, digests: seq<string>, missing: seq<string>,
                   known: set<string>, files: map<string, Bytes>, disk: Disk): (set<string>, map<string, Bytes>)
  {
    if missing == [] || LayerDigests(json, rebuilt, digests).Failure? then (known, files)
    else
      var (files', ok) := Scan(files, rebuilt, LayerDigests(json, rebuilt, digests).value, disk);
      (if ok then known + (set d | d in missing) else known, files')
  }

  method UpdateCacheAndLedger(json: Json, rebuilt: Tar, digests: seq<string>, missing: seq<string>,
                              cache: LayerCache, ledger: Ledger, disk: Disk)
    modifies cache, ledger`known
    ensures (ledger.known, cache.files)
         == Updated(json, rebuilt, digests, missing, old(ledger.known), old(cache.files), disk)
  {
    if |missing| == 0 {
      return;
    }
    var cached := ExtractAndCacheLayers(json, rebuilt, cache, digests, disk);
    if cached.Failure? {
      return;
    }
    ledger.MarkLayersAsOwned(missing);
  }

  /** The two lists partitioning gives are a split, in the sense of the round trip. */
  lemma PartitionIsSplit(truth: string -> Bytes, known: set<string>, files: map<string, Bytes>, digests: seq<string>)
    requires Coherent(truth, known, files)
    ensures IsSplit(truth, files, digests, Outside(digests, known), Within(digests, known))
  {
  }

  /** In a rebuilt tarball every entry under a layer path still has the true content. */
  lemma RebuiltLayersAre(json: Json, truth: string -> Bytes, files: map<string, Bytes>, t: Tar,
                         digests: seq<string>, missing: seq<string>, owned: seq<string>)
    requires WellFormed(json, truth, t, digests) && IsSplit(truth, files, digests, missing, owned)
    requires Pruned(json, t, digests, missing).Success?
    requires Stitched(json, Pruned(json, t, digests, missing).value, files, digests, owned).Success?
    ensures LayersAre(truth, Stitched(json, Pruned(json, t, digests, missing).value, files, digests, owned).value,
                      MainItemOf(json, t).value.layers, digests)
  {
    var layers := MainItemOf(json, t).value.layers;
    PruneThenStitchSucceeds(json, truth, files, t, digests, missing, owned);
    InjectedIsTrue(json, truth, files, t, digests, missing, owned);
    KeptMembers(t, SkipSet(layers, digests, missing));
    var kept := Kept(t, SkipSet(layers, digests, missing));
    var es := Injected(files, owned, LastWins(digests, layers)).value;
    forall e: Entry, i | e in kept + es && 0 <= i < |layers| && e.name == layers[i]
      ensures e.data == truth(digests[i])
    {
      if e !in kept {
        assert e in es;
        var k :| 0 <= k < |digests| && e == Entry(layers[k], truth(digests[k]));
        assert digests[k] == digests[i];
      }
    }
  }

  /** Caching reads the same layers as stitching exactly when it succeeds at all. */
  lemma CachingReadsMainLayers(json: Json, t: Tar, digests: seq<string>)
    requires MainItemOf(json, t).Success? && |MainItemOf(json, t).value.layers| == |digests|
    ensures LayerDigests(json, t, digests).Success? <==> MainIndex(ManifestOf(json, t).value) == Some(0)
    ensures LayerDigests(json, t, digests).Success? ==>
              LayerDigests(json, t, digests).value == LastWins(MainItemOf(json, t).value.layers, digests)
  {
    ManifestReadingsAgree(json, t);
  }

  /** No file that held the content of its digest stops to. */
  ghost predicate NoneLost(truth: string -> Bytes, files: map<string, Bytes>, files': map<string, Bytes>) {
    forall d :: IsDigest(d) && HasTruth(truth, files, d) ==> HasTruth(truth, files', d)
  }

  lemma EntryWritesTruth(truth: string -> Bytes, files: map<string, Bytes>, e: Entry,
                         layers: seq<string>, digests: seq<string>)
    requires |layers| == |digests| && LayersAre(truth, [e], layers, digests)
    requires forall d :: d in digests ==> IsDigest(d)
    ensures var files' := WithEntry(files, e, LastWins(layers, digests));
            && NoneLost(truth, files, files')
            && (e.name in LastWins(layers, digests) ==> HasTruth(truth, files', LastWins(layers, digests)[e.name])
                                                        && LastWins(layers, digests)[e.name] in digests)
  {
    if e.name in LastWins(layers, digests) {
      var i := LastWinsAt(layers, digests, e.name);
      assert e in [e] && e.data == truth(digests[i]);
      var files' := WithEntry(files, e, LastWins(layers, digests));
      forall d | IsDigest(d) && HasTruth(truth, files, d) ensures HasTruth(truth, files', d) {
        if CacheDir(d) == CacheDir(digests[i]) {
          CacheDirInjective(d, digests[i]);
        }
      }
    }
  }

  /** Scanning true layers loses no true file, whatever else is in the cache, and the scanned ones
      are true afterwards. */
  lemma {:induction false} ExtractLosesNothing(truth: string -> Bytes, files: map<string, Bytes>, t: Tar,
                                               layers: seq<string>, digests: seq<string>)
    requires |layers| == |digests| && LayersAre(truth, t, layers, digests)
    requires forall d :: d in digests ==> IsDigest(d)
    ensures NoneLost(truth, files, Extracted(files, t, LastWins(layers, digests)))
    ensures forall j :: 0 <= j < |t| && t[j].name in LastWins(layers, digests) ==>
              HasTruth(truth, Extracted(files, t, LastWins(layers, digests)), LastWins(layers, digests)[t[j].name])
  {
    if t != [] {
      var k := |t| - 1;
      var layerMap := LastWins(layers, digests);
      assert t[k] in t;
      assert forall e :: e in t[..k] ==> e in t;
      ExtractLosesNothing(truth, files, t[..k], layers, digests);
      EntryWritesTruth(truth, Extracted(files, t[..k], layerMap), t[k], layers, digests);
      forall j | 0 <= j < |t| && t[j].name in layerMap
        ensures HasTruth(truth, Extracted(files, t, layerMap), layerMap[t[j].name])
      {
        if j < k {
          assert t[..k][j] == t[j];
          var i := LastWinsAt(layers, digests, t[j].name);
          assert IsDigest(digests[i]);
        }
      }
    }
  }

  /** Hence a scan that gets through a whole image makes the file of every digest true. */
  lemma ExtractMakesTrue(truth: string -> Bytes, files: map<string, Bytes>, t: Tar,
                         layers: seq<string>, digests: seq<string>)
    requires |layers| == |digests| && LayersAre(truth, t, layers, digests) && OneDigestPerPath(layers, digests)
    requires forall i :: 0 <= i < |layers| ==> layers[i] in Contents(t)
    requires forall d :: d in digests ==> IsDigest(d)
    ensures forall d :: d in digests ==> HasTruth(truth, Extracted(files, t, LastWins(layers, digests)), d)
  {
    ExtractLosesNothing(truth, files, t, layers, digests);
    forall d | d in digests ensures HasTruth(truth, Extracted(files, t, LastWins(layers, digests)), d) {
      var i :| 0 <= i < |digests| && digests[i] == d;
      var j := ContentsAt(t, layers[i]);
      LastWinsHas(layers, digests, i);
      var k := LastWinsAt(layers, digests, layers[i]);
      assert digests[k] == d;
    }
  }

  /** The first failed write stops short in the middle of a layer the ledger claims. */
  ghost predicate TearsKnown(known: set<string>, t: Tar, layerMap: map<string, string>, disk: Disk) {
    exists k: nat :: IsFirstFault(t, layerMap, disk, k) && layerMap[t[k].name] in known
                     && disk(k).Stops? && disk(k).copied < |t[k].data|
  }

  /** A scan leaves the stores coherent if and only if it tears no known layer. */
  lemma ScanIsCoherentIff(truth: string -> Bytes, known: set<string>, files: map<string, Bytes>, t: Tar,
                          layers: seq<string>, digests: seq<string>, disk: Disk)
    requires |layers| == |digests| && LayersAre(truth, t, layers, digests)
    requires forall d :: d in digests ==> IsDigest(d)
    requires Coherent(truth, known, files)
    ensures Coherent(truth, known, Scan(files, t, LastWins(layers, digests), disk).0)
       <==> !TearsKnown(known, t, LastWins(layers, digests), disk)
    ensures Scan(files, t, LastWins(layers, digests), disk).1 <==> NoFault(t, LastWins(layers, digests), disk, |t|)
  {
    var layerMap := LastWins(layers, digests);
    if NoFault(t, layerMap, disk, |t|) {
      ScanCompletes(files, t, layerMap, disk);
      ExtractLosesNothing(truth, files, t, layers, digests);
    } else {
      var k := HasFirstFault(t, layerMap, disk, |t|);
      ScanStops(files, t, layerMap, disk, k);
      assert forall e :: e in t[..k] ==> e in t;
      ExtractLosesNothing(truth, files, t[..k], layers, digests);
      TornIsCoherentIff(truth, known, Extracted(files, t[..k], layerMap), t[k], layers, digests, disk(k));
      assert forall m: nat :: IsFirstFault(t, layerMap, disk, m) ==> m == k;
    }
  }

  lemma TornIsCoherentIff(truth: string -> Bytes, known: set<string>, files: map<string, Bytes>, e: Entry,
                          layers: seq<string>, digests: seq<string>, event: WriteEvent)
    requires |layers| == |digests| && e.name in LastWins(layers, digests) && !event.Writes?
    requires forall i :: 0 <= i < |layers| && e.name == layers[i] ==> e.data == truth(digests[i])
    requires forall d :: d in digests ==> IsDigest(d)
    requires Coherent(truth, known, files)
    ensures var d := LastWins(layers, digests)[e.name];
            Coherent(truth, known, Written(files, d, e.data, event))
            <==> !(d in known && event.Stops? && event.copied < |e.data|)
  {
    var i := LastWinsAt(layers, digests, e.name);
    var d := digests[i];
    var files' := Written(files, d, e.data, event);
    if d in known && event.Stops? && event.copied < |e.data| {
      assert |files'[CacheDir(d)]| < |truth(d)| && !HasTruth(truth, files', d);
    } else {
      forall x | x in known ensures IsDigest(x) && HasTruth(truth, files', x) {
        assert HasTruth(truth, files, x);
        if CacheDir(x) == CacheDir(d) {
          CacheDirInjective(x, d);
        }
      }
    }
  }

  /** Caching a rebuilt tarball with true layers: when it leaves the stores coherent, and when it
      teaches every digest. */
  lemma UpdateLearns(json: Json, truth: string -> Bytes, rebuilt: Tar, layers: seq<string>, digests: seq<string>,
                     known: set<string>, files: map<string, Bytes>, disk: Disk)
    requires |layers| == |digests| && OneDigestPerPath(layers, digests) && LayersAre(truth, rebuilt, layers, digests)
    requires forall i :: 0 <= i < |layers| ==> layers[i] in Contents(rebuilt)
    requires forall d :: d in digests ==> IsDigest(d)
    requires Coherent(truth, known, files)
    requires LayerDigests(json, rebuilt, digests).Success? ==>
               LayerDigests(json, rebuilt, digests).value == LastWins(layers, digests)
    ensures var missing, layerMap := Outside(digests, known), LastWins(layers, digests);
            var caches := missing != [] && LayerDigests(json, rebuilt, digests).Success?;
            var (known', files') := Updated(json, rebuilt, digests, missing, known, files, disk);
            && (Coherent(truth, known', files') <==> !caches || !TearsKnown(known, rebuilt, layerMap, disk))
            && ((forall d :: d in digests ==> d in known')
                <==> missing == [] || (caches && NoFault(rebuilt, layerMap, disk, |rebuilt|)))
            && (!caches ==> (known', files') == (known, files))
  {
    var missing := Outside(digests, known);
    if missing != [] {
      assert missing[0] in missing;
      if LayerDigests(json, rebuilt, digests).Success? {
        ScanIsCoherentIff(truth, known, files, rebuilt, layers, digests, disk);
        if NoFault(rebuilt, LastWins(layers, digests), disk, |rebuilt|) {
          ScanCompletes(files, rebuilt, LastWins(layers, digests), disk);
          ExtractMakesTrue(truth, files, rebuilt, layers, digests);
        }
      }
    }
  }

  /** The rebuilt image of a receive, and what it still has of the original. */
  lemma ReceiveRebuilds(json: Json, truth: string -> Bytes, t: Tar, digests: seq<string>,
                        known: set<string>, files: map<string, Bytes>)
    requires WellFormed(json, truth, t, digests) && Coherent(truth, known, files)
    ensures var missing, owned := Outside(digests, known), Within(digests, known);
            && Pruned(json, t, digests, missing).Success?
            && var rebuilt := Stitched(json, Pruned(json, t, digests, missing).value, files, digests, owned);
            && rebuilt.Success? && Contents(rebuilt.value) == Contents(t)
            && ManifestOf(json, rebuilt.value) == ManifestOf(json, t)
            && LayersAre(truth, rebuilt.value, MainItemOf(json, t).value.layers, digests)
  {
    var missing, owned := Outside(digests, known), Within(digests, known);
    PartitionIsSplit(truth, known, files, digests);
    RoundTrip(json, truth, files, t, digests, missing, owned);
    OnePathRemembersAll(MainItemOf(json, t).value.layers, digests, missing, owned);
    PruneThenStitchSucceeds(json, truth, files, t, digests, missing, owned);
    RebuiltLayersAre(json, truth, files, t, digests, missing, owned);
  }

  /** MAIN: without repeated names and digests, what a coherent receiver rebuilds is a permutation of
      the entries that were sent. */
  lemma ReceivedIsPermutation(json: Json, truth: string -> Bytes, t: Tar, digests: seq<string>,
                              known: set<string>, files: map<string, Bytes>)
    requires Describes(json, truth, t, digests) && OneDigestPerPath(MainItemOf(json, t).value.layers, digests)
    requires DistinctNames(t) && NoRepeats(digests) && Coherent(truth, known, files)
    ensures var missing, owned := Outside(digests, known), Within(digests, known);
            && Pruned(json, t, digests, missing).Success?
            && var rebuilt := Stitched(json, Pruned(json, t, digests, missing).value, files, digests, owned);
            rebuilt.Success? && multiset(rebuilt.value) == multiset(t)
  {
    PartitionIsSplit(truth, known, files, digests);
    WithinKeepsNoRepeats(digests, known);
    RoundTripIsPermutation(json, truth, files, t, digests, Outside(digests, known), Within(digests, known));
  }

  lemma {:induction false} WithinKeepsNoRepeats(digests: seq<string>, known: set<string>)
    requires NoRepeats(digests)
    ensures NoRepeats(Within(digests, known))
  {
    if digests != [] {
      var k := |digests| - 1;
      WithinKeepsNoRepeats(digests[..k], known);
      assert digests[k] !in digests[..k];
    }
  }

  /** MAIN: what a receive teaches. Afterwards every layer of the image is known if and only if none
      was missing, or the main manifest item is the first one and no cached file failed to be
      written; the stores are coherent unless a layer the ledger already claimed was torn. A receive
      whose caching fails still completes. */
  lemma LearnsIffMainItemIsFirst(json: Json, truth: string -> Bytes, t: Tar, digests: seq<string>,
                                 known: set<string>, files: map<string, Bytes>, disk: Disk)
    requires WellFormed(json, truth, t, digests)
    requires forall d :: d in digests ==> IsDigest(d)
    requires Coherent(truth, known, files)
    ensures var missing, owned := Outside(digests, known), Within(digests, known);
            && Pruned(json, t, digests, missing).Success?
            && var rebuilt := Stitched(json, Pruned(json, t, digests, missing).value, files, digests, owned);
            && rebuilt.Success? && Contents(rebuilt.value) == Contents(t)
            && CachedWell(json, truth, t, rebuilt.value, digests, known, files, disk)
  {
    ReceiveRebuilds(json, truth, t, digests, known, files);
    var payload := Pruned(json, t, digests, Outside(digests, known)).value;
    var rebuilt := Stitched(json, payload, files, digests, Within(digests, known)).value;
    assert MainItemOf(json, rebuilt) == MainItemOf(json, t);
    CachingReadsMainLayers(json, rebuilt, digests);
    UpdateLearns(json, truth, rebuilt, MainItemOf(json, t).value.layers, digests, known, files, disk);
  }

  /** The stores after a rebuilt image is cached. */
  ghost predicate CachedWell(json: Json, truth: string -> Bytes, t: Tar, rebuilt: Tar, digests: seq<string>,
                             known: set<string>, files: map<string, Bytes>, disk: Disk)
    requires WellFormed(json, truth, t, digests)
  {
    var missing, layerMap := Outside(digests, known), LastWins(MainItemOf(json, t).value.layers, digests);
    var caches := missing != [] && MainIndex(ManifestOf(json, t).value) == Some(0);
    var (known', files') := Updated(json, rebuilt, digests, missing, known, files, disk);
    && (Coherent(truth, known', files') <==> !caches || !TearsKnown(known, rebuilt, layerMap, disk))
    && ((forall d :: d in digests ==> d in known')
        <==> missing == [] || (caches && NoFault(rebuilt, layerMap, disk, |rebuilt|)))
    && (!caches ==> (known', files') == (known, files))
  }

  /** MAIN: an image whose layers are all known is negotiated with nothing missing, ships exactly
      its entries that are not layers, and is rebuilt in full. */
  lemma KnownImageShipsNoLayers(json: Json, truth: string -> Bytes, t: Tar, digests: seq<string>,
                                known: set<string>, files: map<string, Bytes>)
    requires Describes(json, truth, t, digests) && OnePathPerDigest(MainItemOf(json, t).value.layers, digests)
    requires Coherent(truth, known, files)
    requires forall d :: d in digests ==> d in known
    ensures Outside(digests, known) == []
    ensures Pruned(json, t, digests, []).Success?
    ensures var payload := Pruned(json, t, digests, []).value;
            && (forall e :: e in payload <==> e in t && e.name !in MainItemOf(json, t).value.layers)
            && var rebuilt := Stitched(json, payload, files, digests, Within(digests, known));
            rebuilt.Success? && Contents(rebuilt.value) == Contents(t)
  {
    var layers := MainItemOf(json, t).value.layers;
    if Outside(digests, known) != [] {
      assert Outside(digests, known)[0] in Outside(digests, known);
    }
    PartitionIsSplit(truth, known, files, digests);
    RoundTrip(json, truth, files, t, digests, [], Within(digests, known));
    OnePathRemembersAll(layers, digests, [], Within(digests, known));
    KeptMembers(t, SkipSet(layers, digests, []));
    NothingMissingSkipsAll(layers, digests);
  }

  lemma NothingMissingSkipsAll(layers: seq<string>, digests: seq<string>)
    requires |layers| == |digests|
    ensures forall n :: n in SkipSet(layers, digests, []) <==> n in layers
  {
    forall n | n in layers ensures n in SkipSet(layers, digests, []) {
      var i :| 0 <= i < |layers| && layers[i] == n;
      assert digests[i] !in [];
    }
  }

  /** The sender carries on with no digests when it cannot read them; pruning then always fails. */
  lemma UnreadableDigestsAreFatal(json: Json, t: Tar, missing: seq<string>)
    requires DigestsOf(json, t).Failure?
    ensures Pruned(json, t, [], missing).Failure?
  {
    if MainItemOf(json, t).Success? {
      var items := ManifestOf(json, t).value;
      assert IsFirstLongest(items, MainIndex(items).value);
    }
  }

  function FirstInvalid(digests: seq<string>): (r: Option<string>)
    ensures r.None? <==> forall d :: d in digests ==> IsDigest(d)
  {
    if digests == [] then None
    else if !IsDigest(digests[0]) then Some(digests[0])
    else FirstInvalid(digests[1..])
  }

  lemma {:induction false} FirstInvalidAt(digests: seq<string>, i: nat)
    requires i < |digests| && !IsDigest(digests[i]) && forall j :: 0 <= j < i ==> IsDigest(digests[j])
    ensures FirstInvalid(digests) == Some(digests[i])
  {
    if i > 0 {
      FirstInvalidAt(digests[1..], i - 1);
    }
  }

  /** Whatever the image and the receiver are, a push with an invalid digest reports the first one. */
  lemma InvalidPushFails(json: Json, t: Tar, known: set<string>, files: map<string, Bytes>, disk: Disk, i: nat)
    requires DigestsOf(json, t).Success? && i < |DigestsOf(json, t).value|
    requires !IsDigest(DigestsOf(json, t).value[i])
    requires forall j :: 0 <= j < i ==> IsDigest(DigestsOf(json, t).value[j])
    ensures Push(json, t, known, files, disk) == Failure(InvalidDigest(DigestsOf(json, t).value[i]))
  {
    FirstInvalidAt(DigestsOf(json, t).value, i);
  }

  /** The digest list a sender offers: empty when the tarball's own list cannot be read. */
  function Offered(json: Json, t: Tar): seq<string> {
    if DigestsOf(json, t).Success? then DigestsOf(json, t).value else []
  }

  datatype Receipt = Receipt(rebuilt: Tar, known: set<string>, files: map<string, Bytes>)

  /** One approved push, both sides in the order of their phases: inspect, validate, partition,
      prune, stitch, then cache and mark. */
  function Push(json: Json, t: Tar, known: set<string>, files: map<string, Bytes>, disk: Disk): Result<Receipt, Error> {
    var digests := Offered(json, t);
    if FirstInvalid(digests).Some? then Failure(InvalidDigest(FirstInvalid(digests).value))
    else
      var missing := Outside(digests, known);
      var payload :- Pruned(json, t, digests, missing);
      var rebuilt :- Stitched(json, payload, files, digests, Within(digests, known));
      var (known', files') := Updated(json, rebuilt, digests, missing, known, files, disk);
      Success(Receipt(rebuilt, known', files'))
  }

  /** Neither pruning nor stitching complains about the form of a digest. */
  lemma OnlyValidationFindsInvalid(json: Json, t: Tar, files: map<string, Bytes>, digests: seq<string>,
                                   missing: seq<string>, owned: seq<string>)
    ensures Pruned(json, t, digests, missing).Failure? ==> !Pruned(json, t, digests, missing).error.InvalidDigest?
    ensures Stitched(json, t, files, digests, owned).Failure? ==>
              !Stitched(json, t, files, digests, owned).error.InvalidDigest?
  {
    if PathMap(json, t, digests).Success? {
      InjectingFindsUncached(files, owned, PathMap(json, t, digests).value);
    }
  }

  lemma {:induction false} InjectingFindsUncached(files: map<string, Bytes>, digests: seq<string>,
                                                  pathMap: map<string, string>)
    ensures Injected(files, digests, pathMap).Failure? ==> Injected(files, digests, pathMap).error.NotCached?
  {
    if digests != [] {
      InjectingFindsUncached(files, digests[..|digests| - 1], pathMap);
    }
  }

  /** One push as a method: a commit is recorded unless a digest is invalid, and on a failure that
      is all that is recorded. */
  method PushAndReceive(json: Json, t: Tar, ledger: Ledger, cache: LayerCache, commitKey: string, disk: Disk)
    returns (r: Result<Tar, Error>)
    modifies ledger, cache
    ensures match Push(json, t, old(ledger.known), old(cache.files), disk)
            case Success(receipt) =>
              && r == Success(receipt.rebuilt) && ledger.known == receipt.known && cache.files == receipt.files
              && ledger.history == old(ledger.history)[commitKey := "Completed"]
            case Failure(e) =>
              && r == Failure(e) && ledger.known == old(ledger.known) && unchanged(cache)
              && ledger.history == if e.InvalidDigest? then old(ledger.history)
                                   else old(ledger.history)[commitKey := "Failed"]
  {
    var inspected := GetLayersFromTarball(json, t);
    var digests := if inspected.Success? then inspected.value else [];
    for i := 0 to |digests|
      invariant FirstInvalid(digests) == FirstInvalid(digests[i..])
    {
      if !IsDigest(digests[i]) {
        return Failure(InvalidDigest(digests[i]));
      }
      assert digests[i..][1..] == digests[i + 1..];
    }
    var missing, owned := PartitionLayers(digests, ledger);
    var payload := PruneTarball(json, t, digests, missing);
    if payload.Failure? {
      OnlyValidationFindsInvalid(json, t, cache.files, digests, missing, owned);
      ledger.RecordCommit(commitKey, "Failed");
      return Failure(payload.error);
    }
    var rebuilt := StitchTarball(json, payload.value, cache, digests, owned);
    if rebuilt.Failure? {
      OnlyValidationFindsInvalid(json, payload.value, cache.files, digests, missing, owned);
      ledger.RecordCommit(commitKey, "Failed");
      return rebuilt;
    }
    UpdateCacheAndLedger(json, rebuilt.value, digests, missing, cache, ledger, disk);
    ledger.RecordCommit(commitKey, "Completed");
    return rebuilt;
  }

  /** MAIN: a push of a well-formed image to a coherent receiver succeeds exactly when its digests
      are valid, delivers the files of the image, and leaves the stores as `CachedWell` says. */
  lemma PushDelivers(json: Json, truth: string -> Bytes, t: Tar, known: set<string>, files: map<string, Bytes>,
                     disk: Disk)
    requires DigestsOf(json, t).Success? && WellFormed(json, truth, t, DigestsOf(json, t).value)
    requires Coherent(truth, known, files)
    ensures var digests, r := DigestsOf(json, t).value, Push(json, t, known, files, disk);
            && (r.Success? <==> forall d :: d in digests ==> IsDigest(d))
            && (r.Success? ==>
                  && Contents(r.value.rebuilt) == Contents(t)
                  && CachedWell(json, truth, t, r.value.rebuilt, digests, known, files, disk)
                  && (r.value.known, r.value.files)
                       == Updated(json, r.value.rebuilt, digests, Outside(digests, known), known, files, disk))
  {
    var digests := DigestsOf(json, t).value;
    if FirstInvalid(digests).None? {
      LearnsIffMainItemIsFirst(json, truth, t, digests, known, files, disk);
    }
  }

  /** An image whose manifest lists a shorter item first is delivered, but teaches nothing. */
  lemma SecondItemTeachesNothing(json: Json, truth: string -> Bytes, t: Tar, first: string, p: string, q: string,
                                 d: string, e: string,
                                 known: set<string>, files: map<string, Bytes>, disk: Disk)
    requires |t| == 4 && t[0] == Entry(p, truth(d)) && t[1] == Entry(q, truth(e)) && t[3].name == MANIFEST
    requires d != e && p != q && t[2].name != p && t[2].name != q
    requires p != MANIFEST && q != MANIFEST && t[2].name != MANIFEST
    requires json.manifest(t[3].data) == Some([ManifestItem(first, [p]), ManifestItem(t[2].name, [p, q])])
    requires json.diffIds(t[2].data) == Some([d, e]) && IsDigest(d) && IsDigest(e)
    requires Coherent(truth, known, files)
    ensures WellFormed(json, truth, t, [d, e]) && MainIndex(ManifestOf(json, t).value) == Some(1)
    ensures var r := Push(json, t, known, files, disk);
            r.Success? && Contents(r.value.rebuilt) == Contents(t) && r.value.known == known && r.value.files == files
  {
    TwoItemImage(json, truth, t, first, p, q, d, e);
    assert FirstInvalid([d, e]).None?;
    PushDelivers(json, truth, t, known, files, disk);
  }

  lemma TwoItemImage(json: Json, truth: string -> Bytes, t: Tar, first: string, p: string, q: string,
                     d: string, e: string)
    requires |t| == 4 && t[0] == Entry(p, truth(d)) && t[1] == Entry(q, truth(e)) && t[3].name == MANIFEST
    requires d != e && p != q && t[2].name != p && t[2].name != q
    requires p != MANIFEST && q != MANIFEST && t[2].name != MANIFEST
    requires json.manifest(t[3].data) == Some([ManifestItem(first, [p]), ManifestItem(t[2].name, [p, q])])
    requires json.diffIds(t[2].data) == Some([d, e])
    ensures WellFormed(json, truth, t, [d, e]) && MainIndex(ManifestOf(json, t).value) == Some(1)
    ensures DigestsOf(json, t) == Success([d, e])
  {
    var items := [ManifestItem(first, [p]), ManifestItem(t[2].name, [p, q])];
    ManifestComesLast(t[..3], t[3]);
    assert t[..3] + [t[3]] == t;
    SecondItemIsMain(items);
    assert MainItemOf(json, t) == Success(items[1]);
    ThirdIsFirstNamed(t);
    TwoLayersAreDescribed(json, truth, t, p, q, d, e);
    TwoLayersAre(truth, t, p, q, d, e);
    TwoLayersDiffer(p, q, d, e);
  }

  lemma TwoLayersAreDescribed(json: Json, truth: string -> Bytes, t: Tar, p: string, q: string, d: string, e: string)
    requires |t| == 4 && t[0] == Entry(p, truth(d)) && t[1] == Entry(q, truth(e))
    requires p != q && p !in {t[2].name, t[3].name, MANIFEST} && q !in {t[2].name, t[3].name, MANIFEST}
    requires MainItemOf(json, t).Success? && MainItemOf(json, t).value.layers == [p, q]
    ensures Describes(json, truth, t, [d, e])
  {
    LastIsLoaded(t, 0);
    LastIsLoaded(t, 1);
  }

  lemma ThirdIsFirstNamed(t: Tar)
    requires |t| == 4 && t[2].name !in {t[0].name, t[1].name}
    ensures FirstNamed(t, t[2].name) == Some(t[2].data)
  {
  }

  lemma SecondItemIsMain(items: seq<ManifestItem>)
    requires |items| == 2 && |items[0].layers| == 1 && |items[1].layers| == 2
    ensures MainIndex(items) == Some(1)
  {
    assert IsFirstLongest(items, 1);
    FirstLongestIsUnique(items, 1, MainIndex(items).value);
  }

  /** A push whose digest list cannot be read fails, although the sender treats that as harmless. */
  lemma UnreadablePushFails(json: Json, t: Tar, known: set<string>, files: map<string, Bytes>, disk: Disk)
    requires DigestsOf(json, t).Failure?
    ensures Push(json, t, known, files, disk)
         == Failure(if MainItemOf(json, t).Success? then LayerCountMismatch else MainItemOf(json, t).error)
  {
    UnreadableDigestsAreFatal(json, t, []);
  }
}
