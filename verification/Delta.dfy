/** Prune and stitch undo each other: the theorems of the delta transfer. */
module Delta {
  import opened Wrappers
  import opened Tarball
  import opened Digests
  import opened Prune
  import opened Stitch
  import opened Cache

  /** The digests describe the main layers of t: one digest a layer, every layer path is a file
      of t with the true content of its digest, and none of them is the manifest. */
  ghost predicate Describes(json: Json, truth: string -> Bytes, t: Tar, digests: seq<string>) {
    && MainItemOf(json, t).Success?
    && var layers := MainItemOf(json, t).value.layers;
    && |layers| == |digests|
    && forall i :: 0 <= i < |layers| ==>
         (layers[i] != MANIFEST && layers[i] in Contents(t) && Contents(t)[layers[i]] == truth(digests[i]))
  }

  ghost predicate OnePathPerDigest(layers: seq<string>, digests: seq<string>)
    requires |layers| == |digests|
  {
    forall i, j :: 0 <= i < |layers| && 0 <= j < |layers| && digests[i] == digests[j] ==> layers[i] == layers[j]
  }

  ghost predicate OneDigestPerPath(layers: seq<string>, digests: seq<string>)
    requires |layers| == |digests|
  {
    forall i, j :: 0 <= i < |layers| && 0 <= j < |layers| && layers[i] == layers[j] ==> digests[i] == digests[j]
  }

  /** Each digest is missing or owned, only listed digests are owned, and the owned ones are
      cached with their true content. Nothing forbids a digest on both lists. */
  ghost predicate IsSplit(truth: string -> Bytes, files: map<string, Bytes>,
                          digests: seq<string>, missing: seq<string>, owned: seq<string>)
  {
    && (forall d :: d in digests ==> d in missing || d in owned)
    && (forall d :: d in owned ==> d in digests)
    && (forall d :: d in owned ==> HasTruth(truth, files, d))
  }

  ghost predicate HasTruth(truth: string -> Bytes, files: map<string, Bytes>, d: string) {
    CacheDir(d) in files && files[CacheDir(d)] == truth(d)
  }

  /** Every pruned path is the path some owned digest is stitched back under. */
  ghost predicate NoPathForgotten(layers: seq<string>, digests: seq<string>, missing: seq<string>, owned: seq<string>)
    requires |layers| == |digests|
  {
    forall i :: 0 <= i < |layers| && digests[i] !in missing ==>
      exists d :: d in owned && PathOf(LastWins(digests, layers), d) == layers[i]
  }

  /** Pruning and then stitching succeeds, and the main item is read unchanged along the way. */
  lemma PruneThenStitchSucceeds(json: Json, truth: string -> Bytes, files: map<string, Bytes>, t: Tar,
                                digests: seq<string>, missing: seq<string>, owned: seq<string>)
    requires Describes(json, truth, t, digests)
    requires forall d :: d in owned ==> CacheDir(d) in files
    ensures var layers := MainItemOf(json, t).value.layers;
            && Pruned(json, t, digests, missing) == Success(Kept(t, SkipSet(layers, digests, missing)))
            && var p := Pruned(json, t, digests, missing).value;
            && Injected(files, owned, LastWins(digests, layers)).Success?
            && Stitched(json, p, files, digests, owned)
                 == Success(p + Injected(files, owned, LastWins(digests, layers)).value)
            && ManifestOf(json, p) == ManifestOf(json, t)
            && ManifestOf(json, Stitched(json, p, files, digests, owned).value) == ManifestOf(json, t)
  {
    var layers := MainItemOf(json, t).value.layers;
    var skip := SkipSet(layers, digests, missing);
    KeptFirstNamed(t, skip, MANIFEST);
    InjectedSucceeds(files, owned, LastWins(digests, layers));
    FirstNamedAppend(Kept(t, skip), Injected(files, owned, LastWins(digests, layers)).value, MANIFEST);
  }

  /** Every stitched entry restores a layer path of t with the content t has there. */
  lemma InjectedIsTrue(json: Json, truth: string -> Bytes, files: map<string, Bytes>, t: Tar,
                       digests: seq<string>, missing: seq<string>, owned: seq<string>)
    requires Describes(json, truth, t, digests)
    requires IsSplit(truth, files, digests, missing, owned)
    requires Injected(files, owned, LastWins(digests, MainItemOf(json, t).value.layers)).Success?
    ensures var layers := MainItemOf(json, t).value.layers;
            var pathMap := LastWins(digests, layers);
            var es := Injected(files, owned, pathMap).value;
            forall e :: e in es ==> exists k :: 0 <= k < |digests| && digests[k] in owned
                                                && e == Entry(layers[k], truth(digests[k]))
                                                && PathOf(pathMap, digests[k]) == layers[k]
  {
    var layers := MainItemOf(json, t).value.layers;
    var pathMap := LastWins(digests, layers);
    InjectedSucceeds(files, owned, pathMap);
    var es := Injected(files, owned, pathMap).value;
    forall e | e in es
      ensures exists k :: 0 <= k < |digests| && digests[k] in owned && e == Entry(layers[k], truth(digests[k]))
                          && PathOf(pathMap, digests[k]) == layers[k]
    {
      var i :| 0 <= i < |es| && es[i] == e;
      var d := owned[i];
      assert d in owned;
      assert HasTruth(truth, files, d);
      var j :| 0 <= j < |digests| && digests[j] == d;
      LastWinsHas(digests, layers, j);
      var k := LastWinsAt(digests, layers, d);
      assert e == Entry(layers[k], truth(digests[k]));
    }
  }

  /** The files the stitched entries add, and that their contents are those of t. */
  lemma InjectedContents(json: Json, truth: string -> Bytes, files: map<string, Bytes>, t: Tar,
                         digests: seq<string>, missing: seq<string>, owned: seq<string>)
    requires Describes(json, truth, t, digests)
    requires IsSplit(truth, files, digests, missing, owned)
    requires Injected(files, owned, LastWins(digests, MainItemOf(json, t).value.layers)).Success?
    ensures var pathMap := LastWins(digests, MainItemOf(json, t).value.layers);
            var added := Contents(Injected(files, owned, pathMap).value);
            && (forall n :: n in added <==> exists d :: d in owned && PathOf(pathMap, d) == n)
            && (forall n :: n in added ==> n in Contents(t) && added[n] == Contents(t)[n])
  {
    var layers := MainItemOf(json, t).value.layers;
    var pathMap := LastWins(digests, layers);
    InjectedSucceeds(files, owned, pathMap);
    InjectedIsTrue(json, truth, files, t, digests, missing, owned);
    var es := Injected(files, owned, pathMap).value;
    var added := Contents(es);
    forall n | n in added
      ensures n in Contents(t) && added[n] == Contents(t)[n] && exists d :: d in owned && PathOf(pathMap, d) == n
    {
      var i := ContentsAt(es, n);
      assert es[i] in es;
    }
    forall d | d in owned ensures PathOf(pathMap, d) in added {
      var i :| 0 <= i < |owned| && owned[i] == d;
      ContentsNames(es, i);
    }
  }

  /** MAIN: the rebuilt tarball loads as the original one if and only if no pruned path is
      forgotten. Paths can be forgotten because the path map keeps the last path of a digest. */
  lemma RoundTrip(json: Json, truth: string -> Bytes, files: map<string, Bytes>, t: Tar,
                  digests: seq<string>, missing: seq<string>, owned: seq<string>)
    requires Describes(json, truth, t, digests)
    requires IsSplit(truth, files, digests, missing, owned)
    ensures Pruned(json, t, digests, missing).Success?
    ensures var rebuilt := Stitched(json, Pruned(json, t, digests, missing).value, files, digests, owned);
            rebuilt.Success?
            && (Contents(rebuilt.value) == Contents(t)
                <==> NoPathForgotten(MainItemOf(json, t).value.layers, digests, missing, owned))
  {
    PruneThenStitchSucceeds(json, truth, files, t, digests, missing, owned);
    InjectedContents(json, truth, files, t, digests, missing, owned);
    var layers := MainItemOf(json, t).value.layers;
    var pathMap := LastWins(digests, layers);
    var skip := SkipSet(layers, digests, missing);
    var es := Injected(files, owned, pathMap).value;
    KeptContents(t, skip);
    ContentsAppend(Kept(t, skip), es);
    RestoredIff(Contents(t), skip, Contents(es));
    PathsRestoredIff(layers, digests, missing, owned, Contents(es).Keys);
    assert skip <= Contents(t).Keys;
  }

  /** Removing files and adding some back, unchanged, gives the original if and only if every
      removed one is added back. */
  lemma RestoredIff(m: map<string, Bytes>, skip: set<string>, added: map<string, Bytes>)
    requires forall n :: n in added ==> n in m && added[n] == m[n]
    ensures (m - skip) + added == m <==> skip * m.Keys <= added.Keys
  {
    var r := (m - skip) + added;
    if skip * m.Keys <= added.Keys {
      assert r.Keys == m.Keys;
    } else {
      var n :| n in skip * m.Keys && n !in added;
      assert n in m && n !in r;
    }
  }

  lemma PathsRestoredIff(layers: seq<string>, digests: seq<string>, missing: seq<string>, owned: seq<string>,
                         names: set<string>)
    requires |layers| == |digests|
    requires forall n :: n in names <==> exists d :: d in owned && PathOf(LastWins(digests, layers), d) == n
    ensures SkipSet(layers, digests, missing) <= names <==> NoPathForgotten(layers, digests, missing, owned)
  {
    var skip := SkipSet(layers, digests, missing);
    if skip <= names {
      forall i | 0 <= i < |layers| && digests[i] !in missing
        ensures exists d :: d in owned && PathOf(LastWins(digests, layers), d) == layers[i]
      {
        assert layers[i] in skip;
      }
    }
    if NoPathForgotten(layers, digests, missing, owned) {
      forall n | n in skip ensures n in names {
        var i :| 0 <= i < |layers| && digests[i] !in missing && layers[i] == n;
      }
    }
  }

  /** With one path a digest, every split of the digests round-trips. */
  lemma OnePathRemembersAll(layers: seq<string>, digests: seq<string>, missing: seq<string>, owned: seq<string>)
    requires |layers| == |digests| && OnePathPerDigest(layers, digests)
    requires forall d :: d in digests ==> d in missing || d in owned
    ensures NoPathForgotten(layers, digests, missing, owned)
  {
    forall i | 0 <= i < |layers| && digests[i] !in missing
      ensures exists d :: d in owned && PathOf(LastWins(digests, layers), d) == layers[i]
    {
      var d := digests[i];
      assert d in digests;
      LastWinsHas(digests, layers, i);
      var k := LastWinsAt(digests, layers, d);
      assert d in owned && PathOf(LastWins(digests, layers), d) == layers[i];
    }
  }

  /** Each split of these digests remembers all paths. */
  ghost predicate EverySplitRemembers(layers: seq<string>, digests: seq<string>)
    requires |layers| == |digests|
  {
    forall missing, owned |
      (forall d :: d in digests ==> d in missing || d in owned) && (forall d :: d in owned ==> d in digests) ::
      NoPathForgotten(layers, digests, missing, owned)
  }

  /** Exactly then: with two paths for a digest, owning all layers forgets one of them. */
  lemma AllRememberedIffOnePath(layers: seq<string>, digests: seq<string>)
    requires |layers| == |digests| && OneDigestPerPath(layers, digests)
    ensures NoPathForgotten(layers, digests, [], digests) <==> OnePathPerDigest(layers, digests)
    ensures EverySplitRemembers(layers, digests) <==> OnePathPerDigest(layers, digests)
  {
    if OnePathPerDigest(layers, digests) {
      OnePathRemembersEverySplit(layers, digests);
      OnePathRemembersAll(layers, digests, [], digests);
    }
    if NoPathForgotten(layers, digests, [], digests) {
      OwningAllNeedsOnePath(layers, digests);
    }
  }

  lemma OnePathRemembersEverySplit(layers: seq<string>, digests: seq<string>)
    requires |layers| == |digests| && OnePathPerDigest(layers, digests)
    ensures EverySplitRemembers(layers, digests)
  {
    forall missing: seq<string>, owned: seq<string> | forall d :: d in digests ==> d in missing || d in owned
      ensures NoPathForgotten(layers, digests, missing, owned)
    {
      OnePathRemembersAll(layers, digests, missing, owned);
    }
  }

  lemma OwningAllNeedsOnePath(layers: seq<string>, digests: seq<string>)
    requires |layers| == |digests| && OneDigestPerPath(layers, digests)
    requires NoPathForgotten(layers, digests, [], digests)
    ensures OnePathPerDigest(layers, digests)
  {
    forall i, j | 0 <= i < |layers| && 0 <= j < |layers| && digests[i] == digests[j] ensures layers[i] == layers[j] {
      OwnedPathIs(layers, digests, i);
      OwnedPathIs(layers, digests, j);
    }
  }

  lemma OwnedPathIs(layers: seq<string>, digests: seq<string>, i: nat)
    requires i < |layers| == |digests| && OneDigestPerPath(layers, digests)
    requires NoPathForgotten(layers, digests, [], digests)
    ensures PathOf(LastWins(digests, layers), digests[i]) == layers[i]
  {
    assert digests[i] !in [];
    var d :| d in digests && PathOf(LastWins(digests, layers), d) == layers[i];
    PathTellsDigest(layers, digests, i, d);
  }

  lemma PathTellsDigest(layers: seq<string>, digests: seq<string>, i: nat, d: string)
    requires i < |layers| == |digests| && OneDigestPerPath(layers, digests)
    requires d in digests && PathOf(LastWins(digests, layers), d) == layers[i]
    ensures digests[i] == d
  {
    var k := PathIsLayer(layers, digests, d);
    assert layers[k] == layers[i];
  }

  /** MAIN: for a receiver that has every layer cached, each split of the image round-trips if and
      only if no layer is stored under two paths. */
  lemma EverySplitRoundTripsIffOnePath(json: Json, truth: string -> Bytes, files: map<string, Bytes>, t: Tar,
                                       digests: seq<string>)
    requires Describes(json, truth, t, digests)
    requires OneDigestPerPath(MainItemOf(json, t).value.layers, digests)
    requires forall d :: d in digests ==> HasTruth(truth, files, d)
    ensures (forall missing, owned | IsSplit(truth, files, digests, missing, owned) ::
               RoundTrips(json, files, t, digests, missing, owned))
       <==> OnePathPerDigest(MainItemOf(json, t).value.layers, digests)
  {
    var layers := MainItemOf(json, t).value.layers;
    AllRememberedIffOnePath(layers, digests);
    forall missing, owned | IsSplit(truth, files, digests, missing, owned)
      ensures RoundTrips(json, files, t, digests, missing, owned) <==> NoPathForgotten(layers, digests, missing, owned)
    {
      RoundTrip(json, truth, files, t, digests, missing, owned);
    }
    assert IsSplit(truth, files, digests, [], digests);
  }

  /** Pruning and stitching succeed and give a tarball that loads as the original. */
  ghost predicate RoundTrips(json: Json, files: map<string, Bytes>, t: Tar,
                             digests: seq<string>, missing: seq<string>, owned: seq<string>)
  {
    && Pruned(json, t, digests, missing).Success?
    && var rebuilt := Stitched(json, Pruned(json, t, digests, missing).value, files, digests, owned);
    rebuilt.Success? && Contents(rebuilt.value) == Contents(t)
  }

  /** MAIN: whatever the cached files hold, the rebuilt tarball loads as the original if and only if
      each owned digest's file has the true content. */
  lemma StitchIsRightIffFilesAreTrue(json: Json, truth: string -> Bytes, files: map<string, Bytes>, t: Tar,
                                     digests: seq<string>, missing: seq<string>, owned: seq<string>)
    requires Describes(json, truth, t, digests)
    requires OnePathPerDigest(MainItemOf(json, t).value.layers, digests)
    requires OneDigestPerPath(MainItemOf(json, t).value.layers, digests)
    requires forall d :: d in digests ==> d in missing || d in owned
    requires forall d :: d in owned ==> d in digests && CacheDir(d) in files
    ensures RoundTrips(json, files, t, digests, missing, owned)
       <==> forall d :: d in owned ==> HasTruth(truth, files, d)
  {
    var layers := MainItemOf(json, t).value.layers;
    PruneThenStitchSucceeds(json, truth, files, t, digests, missing, owned);
    if forall d :: d in owned ==> HasTruth(truth, files, d) {
      RoundTrip(json, truth, files, t, digests, missing, owned);
      OnePathRemembersAll(layers, digests, missing, owned);
    } else {
      var d :| d in owned && !HasTruth(truth, files, d);
      var i :| 0 <= i < |owned| && owned[i] == d;
      var p := InjectedIsLoaded(files, layers, digests, owned, i, Kept(t, SkipSet(layers, digests, missing)));
    }
  }

  /** What is loaded under the path of an owned digest is its cached file. */
  lemma InjectedIsLoaded(files: map<string, Bytes>, layers: seq<string>, digests: seq<string>, owned: seq<string>,
                         i: nat, payload: Tar) returns (k: nat)
    requires |layers| == |digests| && OneDigestPerPath(layers, digests)
    requires forall d :: d in owned ==> d in digests && CacheDir(d) in files
    requires i < |owned|
    ensures k < |digests| && digests[k] == owned[i]
    ensures Injected(files, owned, LastWins(digests, layers)).Success?
    ensures var rebuilt := payload + Injected(files, owned, LastWins(digests, layers)).value;
            layers[k] in Contents(rebuilt) && Contents(rebuilt)[layers[k]] == files[CacheDir(owned[i])]
  {
    var pathMap := LastWins(digests, layers);
    InjectedSucceeds(files, owned, pathMap);
    var es := Injected(files, owned, pathMap).value;
    var rebuilt := payload + es;
    k := PathIsLayer(layers, digests, owned[i]);
    assert rebuilt[|payload| + i] == es[i] && es[i].name == layers[k];
    ContentsNames(rebuilt, |payload| + i);
    var j := ContentsAt(rebuilt, layers[k]);
    assert j >= |payload| + i;
    var m := PathIsLayer(layers, digests, owned[j - |payload|]);
    assert rebuilt[j] == es[j - |payload|] && layers[m] == layers[k];
  }

  /** Stitching leaves something under every layer path, whatever the cached files hold. */
  lemma StitchedHasLayers(json: Json, truth: string -> Bytes, files: map<string, Bytes>, t: Tar,
                          digests: seq<string>, missing: seq<string>, owned: seq<string>)
    requires Describes(json, truth, t, digests)
    requires OnePathPerDigest(MainItemOf(json, t).value.layers, digests)
    requires OneDigestPerPath(MainItemOf(json, t).value.layers, digests)
    requires forall d :: d in digests ==> d in missing || d in owned
    requires forall d :: d in owned ==> d in digests && CacheDir(d) in files
    ensures Pruned(json, t, digests, missing).Success?
    ensures var rebuilt := Stitched(json, Pruned(json, t, digests, missing).value, files, digests, owned);
            && rebuilt.Success? && ManifestOf(json, rebuilt.value) == ManifestOf(json, t)
            && forall i :: 0 <= i < |digests| ==> MainItemOf(json, t).value.layers[i] in Contents(rebuilt.value)
  {
    var layers := MainItemOf(json, t).value.layers;
    PruneThenStitchSucceeds(json, truth, files, t, digests, missing, owned);
    var kept := Kept(t, SkipSet(layers, digests, missing));
    var es := Injected(files, owned, LastWins(digests, layers)).value;
    forall i | 0 <= i < |digests| ensures layers[i] in Contents(kept + es) {
      if digests[i] in owned {
        var j :| 0 <= j < |owned| && owned[j] == digests[i];
        var k := InjectedIsLoaded(files, layers, digests, owned, j, kept);
        assert layers[k] == layers[i];
      } else {
        KeptContents(t, SkipSet(layers, digests, missing));
        ContentsAppend(kept, es);
      }
    }
  }

  lemma PathIsLayer(layers: seq<string>, digests: seq<string>, d: string) returns (k: nat)
    requires |layers| == |digests| && d in digests
    ensures k < |digests| && digests[k] == d && PathOf(LastWins(digests, layers), d) == layers[k]
  {
    var i :| 0 <= i < |digests| && digests[i] == d;
    LastWinsHas(digests, layers, i);
    k := LastWinsAt(digests, layers, d);
  }

  /** Two equal layers stored under two paths: the first path is pruned and never restored. */
  lemma RepeatedLayerLosesAPath(json: Json, truth: string -> Bytes, files: map<string, Bytes>, t: Tar, d: string)
    requires Describes(json, truth, t, [d, d]) && HasTruth(truth, files, d)
    requires MainItemOf(json, t).value.layers == ["a/layer.tar", "b/layer.tar"]
    ensures Pruned(json, t, [d, d], []).Success?
    ensures var rebuilt := Stitched(json, Pruned(json, t, [d, d], []).value, files, [d, d], [d, d]);
            rebuilt.Success? && "a/layer.tar" in Contents(t) && Contents(rebuilt.value) != Contents(t)
  {
    var layers := MainItemOf(json, t).value.layers;
    RoundTrip(json, truth, files, t, [d, d], [], [d, d]);
    assert layers[0] == "a/layer.tar" && layers[1] == "b/layer.tar";
    assert [d, d][..1] == [d] && layers[..1] == ["a/layer.tar"];
    assert LastWins([d, d], layers)[d] == "b/layer.tar";
    assert "a/layer.tar"[0] != "b/layer.tar"[0];
    forall e | e in [d, d] ensures PathOf(LastWins([d, d], layers), e) != layers[0] {
      assert e == d;
    }
  }

  /** No two entries share a name. */
  ghost predicate DistinctNames(t: Tar) {
    forall i, j :: 0 <= i < j < |t| ==> t[i].name != t[j].name
  }

  ghost predicate NoRepeats(list: seq<string>) {
    forall i, j :: 0 <= i < j < |list| ==> list[i] != list[j]
  }

  /** Tarballs without repeated names hold the same entries when they load the same files. */
  lemma {:induction false} SameContentsIsPermutation(a: Tar, b: Tar)
    requires DistinctNames(a) && DistinctNames(b)
    requires Contents(a) == Contents(b)
    ensures multiset(a) == multiset(b)
  {
    forall e ensures multiset(a)[e] == multiset(b)[e] {
      CountsOne(a, e);
      CountsOne(b, e);
    }
  }

  lemma LastNameIsNew(t: Tar)
    requires t != [] && DistinctNames(t)
    ensures t[|t| - 1].name !in Contents(t[..|t| - 1])
  {
    if t[|t| - 1].name in Contents(t[..|t| - 1]) {
      var _ := ContentsAt(t[..|t| - 1], t[|t| - 1].name);
    }
  }

  lemma {:induction false} CountsOne(t: Tar, e: Entry)
    requires DistinctNames(t)
    ensures multiset(t)[e] == if e.name in Contents(t) && Contents(t)[e.name] == e.data then 1 else 0
  {
    if t != [] {
      var k := |t| - 1;
      assert t == t[..k] + [t[k]];
      CountsOne(t[..k], e);
      LastNameIsNew(t);
    }
  }

  lemma {:induction false} KeptStaysDistinct(t: Tar, skip: set<string>)
    requires DistinctNames(t)
    ensures DistinctNames(Kept(t, skip))
  {
    if t != [] {
      var k := |t| - 1;
      KeptStaysDistinct(t[..k], skip);
      KeptMembers(t[..k], skip);
      var a := Kept(t[..k], skip);
      forall i | 0 <= i < |a| ensures a[i].name != t[k].name {
        assert a[i] in a;
        var j :| 0 <= j < k && t[..k][j] == a[i];
        assert t[j] == a[i];
      }
    }
  }

  /** MAIN: when names and digests do not repeat and no digest is on both lists, the rebuilt
      tarball is a permutation of the original entries. */
  lemma RoundTripIsPermutation(json: Json, truth: string -> Bytes, files: map<string, Bytes>, t: Tar,
                               digests: seq<string>, missing: seq<string>, owned: seq<string>)
    requires Describes(json, truth, t, digests) && IsSplit(truth, files, digests, missing, owned)
    requires OneDigestPerPath(MainItemOf(json, t).value.layers, digests)
    requires DistinctNames(t) && NoRepeats(digests) && NoRepeats(owned)
    requires forall d :: d in owned ==> d !in missing
    ensures Pruned(json, t, digests, missing).Success?
    ensures var rebuilt := Stitched(json, Pruned(json, t, digests, missing).value, files, digests, owned);
            rebuilt.Success? && multiset(rebuilt.value) == multiset(t)
  {
    var layers := MainItemOf(json, t).value.layers;
    RoundTrip(json, truth, files, t, digests, missing, owned);
    OnePathRemembersAll(layers, digests, missing, owned);
    PruneThenStitchSucceeds(json, truth, files, t, digests, missing, owned);
    StitchedStaysDistinct(json, truth, files, t, digests, missing, owned);
    SameContentsIsPermutation(Stitched(json, Pruned(json, t, digests, missing).value, files, digests, owned).value, t);
  }

  lemma StitchedStaysDistinct(json: Json, truth: string -> Bytes, files: map<string, Bytes>, t: Tar,
                              digests: seq<string>, missing: seq<string>, owned: seq<string>)
    requires Describes(json, truth, t, digests) && IsSplit(truth, files, digests, missing, owned)
    requires OneDigestPerPath(MainItemOf(json, t).value.layers, digests)
    requires DistinctNames(t) && NoRepeats(digests) && NoRepeats(owned)
    requires forall d :: d in owned ==> d !in missing
    requires Injected(files, owned, LastWins(digests, MainItemOf(json, t).value.layers)).Success?
    ensures var layers := MainItemOf(json, t).value.layers;
            DistinctNames(Kept(t, SkipSet(layers, digests, missing))
                          + Injected(files, owned, LastWins(digests, layers)).value)
  {
    var layers := MainItemOf(json, t).value.layers;
    var pathMap := LastWins(digests, layers);
    var skip := SkipSet(layers, digests, missing);
    var kept, es := Kept(t, skip), Injected(files, owned, pathMap).value;
    KeptStaysDistinct(t, skip);
    KeptMembers(t, skip);
    InjectedSucceeds(files, owned, pathMap);
    forall b | 0 <= b < |es| ensures es[b].name in skip {
      var y := OwnedIndex(layers, digests, owned, b);
    }
    forall a, b | 0 <= a < b < |es| ensures es[a].name != es[b].name {
      var x := OwnedIndex(layers, digests, owned, a);
      var y := OwnedIndex(layers, digests, owned, b);
      assert digests[x] != digests[y];
    }
    DistinctAppend(kept, es, skip);
  }

  lemma DistinctAppend(a: Tar, b: Tar, names: set<string>)
    requires DistinctNames(a) && DistinctNames(b)
    requires forall e :: e in a ==> e.name !in names
    requires forall i :: 0 <= i < |b| ==> b[i].name in names
    ensures DistinctNames(a + b)
  {
    forall i | 0 <= i < |a| ensures a[i].name !in names {
      assert a[i] in a;
    }
  }

  /** The layer an owned digest is stitched back to. */
  lemma OwnedIndex(layers: seq<string>, digests: seq<string>, owned: seq<string>, a: nat) returns (k: nat)
    requires |layers| == |digests| && a < |owned| && owned[a] in digests
    ensures k < |digests| && digests[k] == owned[a] && PathOf(LastWins(digests, layers), owned[a]) == layers[k]
  {
    var j :| 0 <= j < |digests| && digests[j] == owned[a];
    LastWinsHas(digests, layers, j);
    k := LastWinsAt(digests, layers, owned[a]);
  }
}
