/** After stitching, the layers of the full tarball are written to the cache. */
module Cache {
  import opened Wrappers
  import opened Tarball
  import opened Digests
  import opened Storage

  /** Path to digest over item 0 of the manifest: not the main item of the other readings. */
  function LayerDigests(json: Json, t: Tar, digests: seq<string>): Result<map<string, string>, Error> {
    var items :- ManifestOf(json, t);
    if |items| == 0 || |items[0].layers| != |digests| then Failure(LayerCountMismatch)
    else Success(LastWins(items[0].layers, digests))
  }

  /** A map filled from item 0 whatever the other items are, and refused exactly for another length. */
  lemma LayerDigestsAre(json: Json, t: Tar, digests: seq<string>)
    ensures forall items: seq<ManifestItem> :: ListsItems(json, t, items) ==>
              LayerDigests(json, t, digests)
              == if |items| > 0 && |items[0].layers| == |digests| then Success(LastWins(items[0].layers, digests))
                 else Failure(LayerCountMismatch)
    ensures (forall items :: !ListsItems(json, t, items)) ==> LayerDigests(json, t, digests).Failure?
  {
    ManifestIsRead(json, t);
  }

  method BuildLayerDigestMap(json: Json, t: Tar, digests: seq<string>) returns (r: Result<map<string, string>, Error>)
    ensures r == LayerDigests(json, t, digests)
  {
    var items :- ReadManifest(json, t);
    if |items| == 0 || |items[0].layers| != |digests| {
      return Failure(LayerCountMismatch);
    }
    var layers := items[0].layers;
    var layerMap := map[];
    for i := 0 to |layers|
      invariant layerMap == LastWins(layers[..i], digests[..i])
    {
      layerMap := layerMap[layers[i] := digests[i]];
      assert digests[..i + 1][..i] == digests[..i] && layers[..i + 1][..i] == layers[..i];
    }
    assert digests[..|digests|] == digests && layers[..|digests|] == layers;
    return Success(layerMap);
  }

  /** The cache after one entry of the scan. */
  function WithEntry(files: map<string, Bytes>, e: Entry, layerMap: map<string, string>): map<string, Bytes> {
    if e.name in layerMap then files[CacheDir(layerMap[e.name]) := e.data] else files
  }

  /** The cache after scanning a tarball. */
  function Extracted(files: map<string, Bytes>, t: Tar, layerMap: map<string, string>): map<string, Bytes> {
    if t == [] then files
    else WithEntry(Extracted(files, t[..|t| - 1], layerMap), t[|t| - 1], layerMap)
  }

  /** The entry at position i is the last one whose layer is cached in this directory. */
  ghost predicate IsLastCached(t: Tar, layerMap: map<string, string>, dir: string, i: nat) {
    && i < |t| && t[i].name in layerMap && CacheDir(layerMap[t[i].name]) == dir
    && forall j :: i < j < |t| && t[j].name in layerMap ==> CacheDir(layerMap[t[j].name]) != dir
  }

  /** After a scan a file holds the last entry cached in it, or what it held before. */
  lemma {:induction false} ExtractedAt(files: map<string, Bytes>, t: Tar, layerMap: map<string, string>, dir: string)
    ensures var now := Extracted(files, t, layerMap);
            && (forall i: nat :: IsLastCached(t, layerMap, dir, i) ==> dir in now && now[dir] == t[i].data)
            && ((forall i: nat :: !IsLastCached(t, layerMap, dir, i)) ==>
                  (dir in now <==> dir in files) && (dir in now ==> now[dir] == files[dir]))
  {
    if t != [] {
      var k := |t| - 1;
      ExtractedAt(files, t[..k], layerMap, dir);
      if t[k].name in layerMap && CacheDir(layerMap[t[k].name]) == dir {
        assert IsLastCached(t, layerMap, dir, k);
      } else {
        forall i: nat | i < k ensures IsLastCached(t, layerMap, dir, i) <==> IsLastCached(t[..k], layerMap, dir, i) {
          assert forall j :: 0 <= j < k ==> t[..k][j] == t[j];
        }
        forall i: nat | IsLastCached(t, layerMap, dir, i) ensures i < k {
        }
      }
    }
  }

  /** What the disk does with the layer at each position of the scanned tarball. */
  type Disk = nat -> WriteEvent

  /** The cache when the scan ends, and whether it got through: it ends at the first failed write. */
  function Scan(files: map<string, Bytes>, t: Tar, layerMap: map<string, string>, disk: Disk)
    : (map<string, Bytes>, bool)
  {
    if t == [] then (files, true)
    else
      var k := |t| - 1;
      var (before, ok) := Scan(files, t[..k], layerMap, disk);
      if !ok || t[k].name !in layerMap then (before, ok)
      else (Written(before, layerMap[t[k].name], t[k].data, disk(k)), disk(k).Writes?)
  }

  /** No layer among the first n entries fails to be written. */
  ghost predicate NoFault(t: Tar, layerMap: map<string, string>, disk: Disk, n: nat)
    requires n <= |t|
  {
    forall k :: 0 <= k < n && t[k].name in layerMap ==> disk(k).Writes?
  }

  ghost predicate IsFirstFault(t: Tar, layerMap: map<string, string>, disk: Disk, k: nat) {
    k < |t| && t[k].name in layerMap && !disk(k).Writes? && NoFault(t, layerMap, disk, k)
  }

  lemma {:induction false} ScanCompletes(files: map<string, Bytes>, t: Tar, layerMap: map<string, string>, disk: Disk)
    requires NoFault(t, layerMap, disk, |t|)
    ensures Scan(files, t, layerMap, disk) == (Extracted(files, t, layerMap), true)
  {
    if t != [] {
      ScanCompletes(files, t[..|t| - 1], layerMap, disk);
    }
  }

  lemma {:induction false} ScanStays(files: map<string, Bytes>, t: Tar, layerMap: map<string, string>, disk: Disk,
                                      n: nat)
    requires n <= |t| && !Scan(files, t[..n], layerMap, disk).1
    ensures Scan(files, t, layerMap, disk) == Scan(files, t[..n], layerMap, disk)
  {
    if n == |t| {
      assert t[..n] == t;
    } else {
      assert t[..|t| - 1][..n] == t[..n];
      ScanStays(files, t[..|t| - 1], layerMap, disk, n);
    }
  }

  /** A failed scan has written everything before its first fault, and has torn that layer. */
  lemma ScanStops(files: map<string, Bytes>, t: Tar, layerMap: map<string, string>, disk: Disk, k: nat)
    requires IsFirstFault(t, layerMap, disk, k)
    ensures Scan(files, t, layerMap, disk)
         == (Written(Extracted(files, t[..k], layerMap), layerMap[t[k].name], t[k].data, disk(k)), false)
  {
    assert NoFault(t[..k], layerMap, disk, k);
    ScanCompletes(files, t[..k], layerMap, disk);
    assert t[..k + 1][..k] == t[..k];
    ScanStays(files, t, layerMap, disk, k + 1);
  }

  lemma {:induction false} HasFirstFault(t: Tar, layerMap: map<string, string>, disk: Disk, n: nat) returns (k: nat)
    requires n <= |t| && !NoFault(t, layerMap, disk, n)
    ensures IsFirstFault(t, layerMap, disk, k)
  {
    if NoFault(t, layerMap, disk, n - 1) {
      k := n - 1;
    } else {
      k := HasFirstFault(t, layerMap, disk, n - 1);
    }
  }

  method ExtractMatchingLayers(t: Tar, cache: LayerCache, layerMap: map<string, string>, disk: Disk)
    returns (r: Result<(), Error>)
    modifies cache
    ensures (cache.files, r.Success?) == Scan(old(cache.files), t, layerMap, disk)
  {
    for i := 0 to |t|
      invariant (cache.files, true) == Scan(old(cache.files), t[..i], layerMap, disk)
    {
      assert t[..i + 1][..i] == t[..i];
      if t[i].name in layerMap {
        var ok := cache.WriteCachedLayer(layerMap[t[i].name], t[i].data, disk(i));
        if !ok {
          ScanStays(old(cache.files), t, layerMap, disk, i + 1);
          return Failure(NotWritten(layerMap[t[i].name]));
        }
      }
    }
    assert t[..|t|] == t;
    return Success(());
  }

  method ExtractAndCacheLayers(json: Json, t: Tar, cache: LayerCache, digests: seq<string>, disk: Disk)
    returns (r: Result<(), Error>)
    modifies cache
    ensures match LayerDigests(json, t, digests)
            case Success(layerMap) => (cache.files, r.Success?) == Scan(old(cache.files), t, layerMap, disk)
            case Failure(e) => r == Failure(e) && cache.files == old(cache.files)
  {
    var layerMap :- BuildLayerDigestMap(json, t, digests);
    r := ExtractMatchingLayers(t, cache, layerMap, disk);
  }
}
