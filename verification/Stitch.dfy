/** The receiver appends its cached layers to the payload under their manifest paths. */
module Stitch {
  import opened Wrappers
  import opened Tarball
  import opened Digests
  import opened Storage

  class TarWriter {
    var entries: Tar

    constructor ()
      ensures entries == []
    {
      entries := [];
    }

    method WriteEntry(e: Entry)
      modifies this
      ensures entries == old(entries) + [e]
    {
      entries := entries + [e];
    }
  }

  /** Digest to path over the main layers, refused when the digest list has another length. */
  function PathMap(json: Json, t: Tar, digests: seq<string>): Result<map<string, string>, Error> {
    var item :- MainItemOf(json, t);
    if |item.layers| != |digests| then Failure(LayerCountMismatch)
    else Success(LastWins(digests, item.layers))
  }

  method BuildDigestToPathMap(json: Json, t: Tar, digests: seq<string>) returns (r: Result<map<string, string>, Error>)
    ensures r == PathMap(json, t, digests)
  {
    var item :- GetMainManifestItem(json, t);
    if |item.layers| != |digests| {
      return Failure(LayerCountMismatch);
    }
    var pathMap := map[];
    for i := 0 to |item.layers|
      invariant pathMap == LastWins(digests[..i], item.layers[..i])
    {
      pathMap := pathMap[digests[i] := item.layers[i]];
      assert digests[..i + 1][..i] == digests[..i] && item.layers[..i + 1][..i] == item.layers[..i];
    }
    assert digests[..|digests|] == digests && item.layers[..|digests|] == item.layers;
    return Success(pathMap);
  }

  /** The path a digest is stitched under; an unmapped digest would get the empty path. */
  function PathOf(pathMap: map<string, string>, digest: string): string {
    if digest in pathMap then pathMap[digest] else ""
  }

  /** The entries stitching appends, in list order, or the first digest without a cached file. */
  function Injected(files: map<string, Bytes>, digests: seq<string>, pathMap: map<string, string>): Result<Tar, Error> {
    if digests == [] then Success([])
    else
      var d := digests[|digests| - 1];
      var before :- Injected(files, digests[..|digests| - 1], pathMap);
      if CacheDir(d) in files then Success(before + [Entry(PathOf(pathMap, d), files[CacheDir(d)])])
      else Failure(NotCached(d))
  }

  /** A failed prefix fails the whole list, with the same error. */
  lemma {:induction false} InjectedPrefixFails(files: map<string, Bytes>, digests: seq<string>,
                                               pathMap: map<string, string>, n: nat)
    requires n <= |digests| && Injected(files, digests[..n], pathMap).Failure?
    ensures Injected(files, digests, pathMap) == Injected(files, digests[..n], pathMap)
  {
    if n == |digests| {
      assert digests[..n] == digests;
    } else {
      assert digests[..|digests| - 1][..n] == digests[..n];
      InjectedPrefixFails(files, digests[..|digests| - 1], pathMap, n);
    }
  }

  method CopyAllTarEntries(src: Tar, tw: TarWriter)
    modifies tw
    ensures tw.entries == old(tw.entries) + src
  {
    for i := 0 to |src|
      invariant tw.entries == old(tw.entries) + src[..i]
    {
      tw.WriteEntry(src[i]);
    }
  }

  method InjectOneLayer(tw: TarWriter, cache: LayerCache, digest: string, pathMap: map<string, string>)
    returns (r: Result<(), Error>)
    modifies tw
    ensures CacheDir(digest) in cache.files ==>
              && r.Success?
              && tw.entries == old(tw.entries) + [Entry(PathOf(pathMap, digest), cache.files[CacheDir(digest)])]
    ensures CacheDir(digest) !in cache.files ==> r == Failure(NotCached(digest)) && tw.entries == old(tw.entries)
  {
    if CacheDir(digest) !in cache.files {
      return Failure(NotCached(digest));
    }
    tw.WriteEntry(Entry(PathOf(pathMap, digest), cache.files[CacheDir(digest)]));
    return Success(());
  }

  method InjectCachedLayers(tw: TarWriter, cache: LayerCache, digests: seq<string>, pathMap: map<string, string>)
    returns (r: Result<(), Error>)
    modifies tw
    ensures match Injected(cache.files, digests, pathMap)
            case Success(es) => r.Success? && tw.entries == old(tw.entries) + es
            case Failure(e) => r == Failure(e)
    // A failure keeps what was appended up to the first digest without a file.
    ensures r.Failure? ==>
              exists n :: 0 <= n < |digests|
                          && CacheDir(digests[n]) !in cache.files && r == Failure(NotCached(digests[n]))
                          && Injected(cache.files, digests[..n], pathMap).Success?
                          && tw.entries == old(tw.entries) + Injected(cache.files, digests[..n], pathMap).value
  {
    for i := 0 to |digests|
      invariant Injected(cache.files, digests[..i], pathMap).Success?
      invariant tw.entries == old(tw.entries) + Injected(cache.files, digests[..i], pathMap).value
    {
      assert digests[..i + 1][..i] == digests[..i];
      var one := InjectOneLayer(tw, cache, digests[i], pathMap);
      if one.Failure? {
        InjectedPrefixFails(cache.files, digests, pathMap, i + 1);
        return one;
      }
    }
    assert digests[..|digests|] == digests;
    return Success(());
  }

  /** StitchTarball as a value. */
  function Stitched(json: Json, pruned: Tar, files: map<string, Bytes>, digests: seq<string>,
                    owned: seq<string>): Result<Tar, Error>
  {
    var pathMap :- PathMap(json, pruned, digests);
    var injected :- Injected(files, owned, pathMap);
    Success(pruned + injected)
  }

  method StitchTarball(json: Json, pruned: Tar, cache: LayerCache, digests: seq<string>, owned: seq<string>)
    returns (r: Result<Tar, Error>)
    ensures r == Stitched(json, pruned, cache.files, digests, owned)
  {
    var pathMap :- BuildDigestToPathMap(json, pruned, digests);
    var tw := new TarWriter();
    CopyAllTarEntries(pruned, tw);
    assert tw.entries == pruned;
    var done := InjectCachedLayers(tw, cache, owned, pathMap);
    if done.Failure? {
      return Failure(done.error);
    }
    return Success(tw.entries);
  }

  /** Stitching gets every file it needs exactly when each owned digest has a cached file. */
  lemma {:induction false} InjectedSucceeds(files: map<string, Bytes>, digests: seq<string>,
                                            pathMap: map<string, string>)
    ensures Injected(files, digests, pathMap).Success? <==> forall d :: d in digests ==> CacheDir(d) in files
    ensures Injected(files, digests, pathMap).Success? ==>
              var es := Injected(files, digests, pathMap).value;
              |es| == |digests|
              && forall i :: 0 <= i < |es| ==>
                   (CacheDir(digests[i]) in files
                    && es[i] == Entry(PathOf(pathMap, digests[i]), files[CacheDir(digests[i])]))
  {
    if digests != [] {
      var n := |digests| - 1;
      InjectedSucceeds(files, digests[..n], pathMap);
      assert digests == digests[..n] + [digests[n]];
      assert forall d :: d in digests <==> d in digests[..n] || d == digests[n];
    }
  }

  /** The entry a digest is stitched back as: under the path at its last position in the list, or under
      no path at all. */
  ghost predicate IsStitchedAs(files: map<string, Bytes>, layers: seq<string>, digests: seq<string>,
                               d: string, e: Entry)
    requires |layers| == |digests|
  {
    && CacheDir(d) in files && e.data == files[CacheDir(d)]
    && (d !in digests ==> e.name == "")
    && (forall i :: 0 <= i < |digests| && digests[i] == d && (forall j :: i < j < |digests| ==> digests[j] != d) ==>
          e.name == layers[i])
  }

  /** MAIN: the rebuilt tarball is the payload followed by one entry for each owned digest in list order;
      otherwise the error is that of the manifest, a wrong length, or the first owned digest that has
      no cached file. */
  lemma StitchedIsPayloadThenLayers(json: Json, pruned: Tar, files: map<string, Bytes>,
                                    digests: seq<string>, owned: seq<string>)
    ensures var r := Stitched(json, pruned, files, digests, owned);
            match MainItemOf(json, pruned)
            case Failure(e) => r == Failure(e)
            case Success(item) =>
              if |item.layers| != |digests| then r == Failure(LayerCountMismatch)
              else if forall d :: d in owned ==> CacheDir(d) in files then
                && r.Success? && |r.value| == |pruned| + |owned| && r.value[..|pruned|] == pruned
                && forall i :: 0 <= i < |owned| ==>
                     IsStitchedAs(files, item.layers, digests, owned[i], r.value[|pruned| + i])
              else exists i :: 0 <= i < |owned| && r == Failure(NotCached(owned[i])) && CacheDir(owned[i]) !in files
                               && forall j :: 0 <= j < i ==> CacheDir(owned[j]) in files
  {
    if MainItemOf(json, pruned).Success? && |MainItemOf(json, pruned).value.layers| == |digests| {
      var layers := MainItemOf(json, pruned).value.layers;
      var pathMap := LastWins(digests, layers);
      InjectedSucceeds(files, owned, pathMap);
      if forall d :: d in owned ==> CacheDir(d) in files {
        var es := Injected(files, owned, pathMap).value;
        forall i | 0 <= i < |owned| ensures IsStitchedAs(files, layers, digests, owned[i], es[i]) {
          PathIsLast(layers, digests, owned[i]);
        }
        assert (pruned + es)[..|pruned|] == pruned;
      } else {
        var i := FirstUncached(files, owned, pathMap);
      }
    }
  }

  lemma PathIsLast(layers: seq<string>, digests: seq<string>, d: string)
    requires |layers| == |digests|
    ensures d !in digests ==> PathOf(LastWins(digests, layers), d) == ""
    ensures forall i :: 0 <= i < |digests| && digests[i] == d && (forall j :: i < j < |digests| ==> digests[j] != d) ==>
              PathOf(LastWins(digests, layers), d) == layers[i]
  {
    if d in LastWins(digests, layers) {
      var k := LastWinsAt(digests, layers, d);
      assert d in digests;
      forall i | 0 <= i < |digests| && digests[i] == d && (forall j :: i < j < |digests| ==> digests[j] != d)
        ensures PathOf(LastWins(digests, layers), d) == layers[i]
      {
        assert i == k;
      }
    } else if i: nat :| i < |digests| && digests[i] == d {
      LastWinsHas(digests, layers, i);
    }
  }

  lemma {:induction false} FirstUncached(files: map<string, Bytes>, digests: seq<string>, pathMap: map<string, string>)
    returns (i: nat)
    requires exists d :: d in digests && CacheDir(d) !in files
    ensures i < |digests| && CacheDir(digests[i]) !in files && forall j :: 0 <= j < i ==> CacheDir(digests[j]) in files
    ensures Injected(files, digests, pathMap) == Failure(NotCached(digests[i]))
  {
    var k := |digests| - 1;
    InjectedSucceeds(files, digests[..k], pathMap);
    assert digests == digests[..k] + [digests[k]];
    if exists d :: d in digests[..k] && CacheDir(d) !in files {
      i := FirstUncached(files, digests[..k], pathMap);
    } else {
      i := k;
      assert forall j :: 0 <= j < k ==> digests[j] in digests[..k];
    }
  }
}
