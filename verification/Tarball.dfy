/** Docker tarballs as sequences of entries, and the readings of their manifest. */
module Tarball {
  import opened Wrappers

  datatype Entry = Entry(name: string, data: Bytes)
  type Tar = seq<Entry>

  datatype ManifestItem = ManifestItem(config: string, layers: seq<string>)

  /** JSON decoding belongs to a library: a tarball is read through these decoders. */
  datatype Json = Json(manifest: Bytes -> Option<seq<ManifestItem>>,
                       diffIds: Bytes -> Option<seq<string>>)

  datatype Error =
    | ManifestNotFound
    | BadManifest
    | NoLayers
    | ConfigNotFound
    | BadConfig
    | LayerCountMismatch
    | NotCached(digest: string)
    | NotWritten(digest: string)
    | InvalidDigest(digest: string)

  const MANIFEST := "manifest.json"

  /** Reading by name stops at the first entry that carries it. */
  function FirstNamed(t: Tar, name: string): (r: Option<Bytes>)
    ensures r.None? <==> forall i :: 0 <= i < |t| ==> t[i].name != name
    ensures r.Some? ==> exists i :: 0 <= i < |t| && t[i] == Entry(name, r.value)
                                    && forall j :: 0 <= j < i ==> t[j].name != name
  {
    if t == [] then None
    else if t[0].name == name then
      assert t[0] == Entry(name, t[0].data);
      Some(t[0].data)
    else
      var r := FirstNamed(t[1..], name);
      assert forall i :: 1 <= i < |t| ==> t[i] == t[1..][i - 1];
      assert r.Some? ==> exists i :: 0 <= i < |t| && t[i] == Entry(name, r.value)
                                     && forall j :: 0 <= j < i ==> t[j].name != name by {
        if r.Some? {
          var i :| 0 <= i < |t[1..]| && t[1..][i] == Entry(name, r.value)
                   && forall j :: 0 <= j < i ==> t[1..][j].name != name;
          assert t[i + 1] == Entry(name, r.value);
          forall j | 0 <= j < i + 1 ensures t[j].name != name {
            if j > 0 { assert t[j] == t[1..][j - 1]; }
          }
        }
      }
      r
  }

  /** What a loader sees: a later entry of the same name replaces an earlier one. */
  function Contents(t: Tar): map<string, Bytes> {
    if t == [] then map[]
    else Contents(t[..|t| - 1])[t[|t| - 1].name := t[|t| - 1].data]
  }

  /** Entry i is the last one that carries its name. */
  ghost predicate IsLast(t: Tar, i: nat) {
    i < |t| && forall j :: i < j < |t| ==> t[j].name != t[i].name
  }

  lemma {:induction false} ContentsNames(t: Tar, i: nat)
    requires i < |t|
    ensures t[i].name in Contents(t)
  {
    if i < |t| - 1 {
      ContentsNames(t[..|t| - 1], i);
    }
  }

  /** Every loaded file is the data of the last entry of that name. */
  lemma {:induction false} ContentsAt(t: Tar, n: string) returns (i: nat)
    requires n in Contents(t)
    ensures IsLast(t, i) && t[i] == Entry(n, Contents(t)[n])
  {
    var k := |t| - 1;
    if t[k].name == n {
      i := k;
    } else {
      i := ContentsAt(t[..k], n);
      assert t[i] == t[..k][i];
      forall j | i < j < |t| ensures t[j].name != n {
        if j < k { assert t[j] == t[..k][j]; }
      }
    }
  }

  lemma ContentsOfOneMore(t: Tar, e: Entry)
    ensures Contents(t + [e]) == Contents(t)[e.name := e.data]
  {
    assert (t + [e])[..|t|] == t;
  }

  lemma {:induction false} ContentsAppend(a: Tar, b: Tar)
    ensures Contents(a + b) == Contents(a) + Contents(b)
  {
    if b == [] {
      assert a + b == a;
    } else {
      var k := |b| - 1;
      ContentsAppend(a, b[..k]);
      ContentsOfOneMore(a + b[..k], b[k]);
      UpdateAfterMerge(Contents(a), Contents(b[..k]), b[k].name, b[k].data);
      assert a + b == (a + b[..k]) + [b[k]];
    }
  }

  lemma UpdateAfterMerge(a: map<string, Bytes>, b: map<string, Bytes>, n: string, data: Bytes)
    ensures (a + b)[n := data] == a + b[n := data]
  {
  }

  /** The decoded manifest.json of a tarball. */
  function ManifestOf(json: Json, t: Tar): Result<seq<ManifestItem>, Error> {
    match FirstNamed(t, MANIFEST)
    case None => Failure(ManifestNotFound)
    case Some(data) =>
      match json.manifest(data)
      case None => Failure(BadManifest)
      case Some(items) => Success(items)
  }

  /** Entry i is the first one that carries this name. */
  ghost predicate IsFirst(t: Tar, i: nat, name: string) {
    i < |t| && t[i].name == name && forall j :: 0 <= j < i ==> t[j].name != name
  }

  lemma FirstNamedAt(t: Tar, i: nat, name: string)
    requires IsFirst(t, i, name)
    ensures FirstNamed(t, name) == Some(t[i].data)
  {
  }

  lemma HasFirst(t: Tar, name: string) returns (i: nat)
    requires FirstNamed(t, name).Some?
    ensures IsFirst(t, i, name)
  {
    i :| i < |t| && t[i] == Entry(name, FirstNamed(t, name).value) && forall j :: 0 <= j < i ==> t[j].name != name;
  }

  /** The first manifest.json of the tarball decodes to these items. */
  ghost predicate ListsItems(json: Json, t: Tar, items: seq<ManifestItem>) {
    exists i: nat :: IsFirst(t, i, MANIFEST) && json.manifest(t[i].data) == Some(items)
  }

  /** The three outcomes of reading the manifest, position by position. */
  lemma ManifestIsRead(json: Json, t: Tar)
    ensures forall items :: ManifestOf(json, t) == Success(items) <==> ListsItems(json, t, items)
    ensures ManifestOf(json, t) == Failure(ManifestNotFound) <==> forall i :: 0 <= i < |t| ==> t[i].name != MANIFEST
    ensures ManifestOf(json, t) == Failure(BadManifest)
       <==> exists i: nat :: IsFirst(t, i, MANIFEST) && json.manifest(t[i].data) == None
  {
    if FirstNamed(t, MANIFEST).Some? {
      var i := HasFirst(t, MANIFEST);
      FirstNamedAt(t, i, MANIFEST);
      assert forall j: nat :: IsFirst(t, j, MANIFEST) ==> j == i;
    }
  }

  method ReadManifest(json: Json, t: Tar) returns (r: Result<seq<ManifestItem>, Error>)
    ensures r == ManifestOf(json, t)
  {
    for i := 0 to |t|
      invariant FirstNamed(t, MANIFEST) == FirstNamed(t[i..], MANIFEST)
    {
      if t[i].name == MANIFEST {
        match json.manifest(t[i].data) {
          case None => return Failure(BadManifest);
          case Some(items) => return Success(items);
        }
      }
      assert t[i..][1..] == t[i + 1..];
    }
    return Failure(ManifestNotFound);
  }

  /** Item k has layers, strictly more than any earlier item and at least as many as any later one. */
  ghost predicate IsFirstLongest(items: seq<ManifestItem>, k: nat) {
    && k < |items|
    && 0 < |items[k].layers|
    && (forall j :: 0 <= j < k ==> |items[j].layers| < |items[k].layers|)
    && (forall j :: k <= j < |items| ==> |items[j].layers| <= |items[k].layers|)
  }

  function MainIndex(items: seq<ManifestItem>): (r: Option<nat>)
    ensures r.Some? ==> IsFirstLongest(items, r.value)
    ensures r.None? <==> forall j :: 0 <= j < |items| ==> items[j].layers == []
  {
    if items == [] then None
    else
      var last := |items| - 1;
      var r := MainIndex(items[..last]);
      if |items[last].layers| > (if r.None? then 0 else |items[r.value].layers|) then Some(last) else r
  }

  lemma FirstLongestIsUnique(items: seq<ManifestItem>, j: nat, k: nat)
    requires IsFirstLongest(items, j) && IsFirstLongest(items, k)
    ensures j == k
  {
  }

  function MainItemOf(json: Json, t: Tar): Result<ManifestItem, Error> {
    var items :- ManifestOf(json, t);
    match MainIndex(items)
    case None => Failure(NoLayers)
    case Some(k) => Success(items[k])
  }

  method GetMainManifestItem(json: Json, t: Tar) returns (r: Result<ManifestItem, Error>)
    ensures r == MainItemOf(json, t)
    ensures r.Success? ==> ManifestOf(json, t).Success?
                           && exists k: nat :: IsFirstLongest(ManifestOf(json, t).value, k)
                                               && r.value == ManifestOf(json, t).value[k]
  {
    var items :- ReadManifest(json, t);
    var maxLayers: nat, mainItem: Option<nat> := 0, None;
    for i := 0 to |items|
      invariant mainItem.None? ==> maxLayers == 0 && forall j :: 0 <= j < i ==> items[j].layers == []
      invariant mainItem.Some? ==>
          && mainItem.value < i
          && 0 < |items[mainItem.value].layers| == maxLayers
          && (forall j :: 0 <= j < mainItem.value ==> |items[j].layers| < maxLayers)
          && (forall j :: mainItem.value <= j < i ==> |items[j].layers| <= maxLayers)
    {
      if |items[i].layers| > maxLayers {
        maxLayers, mainItem := |items[i].layers|, Some(i as nat);
      }
    }
    if mainItem.None? {
      return Failure(NoLayers);
    }
    assert IsFirstLongest(items, mainItem.value);
    FirstLongestIsUnique(items, mainItem.value, MainIndex(items).value);
    return Success(items[mainItem.value]);
  }

  /** Pruning and stitching use the first longest item, caching uses item 0: they are the same
      item exactly when item 0 has as many layers as the main one. */
  lemma ManifestReadingsAgree(json: Json, t: Tar)
    requires MainItemOf(json, t).Success?
    ensures var items := ManifestOf(json, t).value;
            |items| > 0
            && (MainIndex(items) == Some(0) <==> |items[0].layers| == |MainItemOf(json, t).value.layers|)
  {
    var items := ManifestOf(json, t).value;
    var k := MainIndex(items).value;
    assert IsFirstLongest(items, k);
  }

  /** The layer digests of an image: the diff ids of the main item's config, read from the first
      entry of that name. */
  function DigestsOf(json: Json, t: Tar): Result<seq<string>, Error> {
    var item :- MainItemOf(json, t);
    match FirstNamed(t, item.config)
    case None => Failure(ConfigNotFound)
    case Some(data) =>
      match json.diffIds(data)
      case None => Failure(BadConfig)
      case Some(ids) => Success(ids)
  }

  /** The config of the first longest item, read from the first entry of that name, lists these ids. */
  ghost predicate Offers(json: Json, t: Tar, ids: seq<string>) {
    exists items: seq<ManifestItem>, k: nat, i: nat ::
      ListsItems(json, t, items) && IsFirstLongest(items, k)
      && IsFirst(t, i, items[k].config) && json.diffIds(t[i].data) == Some(ids)
  }

  /** The first longest item names a config that the tarball lacks. */
  ghost predicate LacksConfig(json: Json, t: Tar) {
    exists items: seq<ManifestItem>, k: nat ::
      ListsItems(json, t, items) && IsFirstLongest(items, k)
      && forall i :: 0 <= i < |t| ==> t[i].name != items[k].config
  }

  /** The first entry of that name cannot be decoded. */
  ghost predicate HasBadConfig(json: Json, t: Tar) {
    exists items: seq<ManifestItem>, k: nat, i: nat ::
      ListsItems(json, t, items) && IsFirstLongest(items, k)
      && IsFirst(t, i, items[k].config) && json.diffIds(t[i].data) == None
  }

  ghost predicate HasNoLayers(json: Json, t: Tar) {
    exists items: seq<ManifestItem> ::
      ListsItems(json, t, items) && forall k :: 0 <= k < |items| ==> items[k].layers == []
  }

  lemma MainItemIs(json: Json, t: Tar, items: seq<ManifestItem>, k: nat)
    requires ListsItems(json, t, items) && IsFirstLongest(items, k)
    ensures MainItemOf(json, t) == Success(items[k])
  {
    ManifestIsRead(json, t);
    FirstLongestIsUnique(items, k, MainIndex(items).value);
  }

  /** MAIN: the offered digests, and each error, by what the tarball holds at which position. */
  lemma OfferedDigestsAre(json: Json, t: Tar)
    ensures forall ids :: DigestsOf(json, t) == Success(ids) <==> Offers(json, t, ids)
    ensures DigestsOf(json, t) == Failure(ManifestNotFound) <==> forall i :: 0 <= i < |t| ==> t[i].name != MANIFEST
    ensures DigestsOf(json, t) == Failure(BadManifest)
       <==> exists i: nat :: IsFirst(t, i, MANIFEST) && json.manifest(t[i].data) == None
    ensures DigestsOf(json, t) == Failure(NoLayers) <==> HasNoLayers(json, t)
    ensures DigestsOf(json, t) == Failure(ConfigNotFound) <==> LacksConfig(json, t)
    ensures DigestsOf(json, t) == Failure(BadConfig) <==> HasBadConfig(json, t)
  {
    ManifestIsRead(json, t);
    if ManifestOf(json, t).Success? {
      var items := ManifestOf(json, t).value;
      assert forall other :: ListsItems(json, t, other) <==> other == items;
      if MainIndex(items).Some? {
        ConfigIsRead(json, t, items, MainIndex(items).value);
      }
    }
  }

  lemma ConfigIsRead(json: Json, t: Tar, items: seq<ManifestItem>, k: nat)
    requires IsFirstLongest(items, k) && ListsItems(json, t, items)
    requires forall other :: ListsItems(json, t, other) <==> other == items
    ensures forall ids :: DigestsOf(json, t) == Success(ids) <==> Offers(json, t, ids)
    ensures DigestsOf(json, t) == Failure(ConfigNotFound) <==> LacksConfig(json, t)
    ensures DigestsOf(json, t) == Failure(BadConfig) <==> HasBadConfig(json, t)
    ensures !HasNoLayers(json, t)
    ensures DigestsOf(json, t).Failure? ==>
              DigestsOf(json, t).error.ConfigNotFound? || DigestsOf(json, t).error.BadConfig?
  {
    MainItemIs(json, t, items, k);
    assert forall j: nat :: IsFirstLongest(items, j) ==> j == k;
    var config := items[k].config;
    if FirstNamed(t, config).Some? {
      var i := HasFirst(t, config);
      FirstNamedAt(t, i, config);
      assert forall j: nat :: IsFirst(t, j, config) ==> j == i;
    }
  }

  method GetLayersFromTarball(json: Json, t: Tar) returns (r: Result<seq<string>, Error>)
    ensures r == DigestsOf(json, t)
  {
    var item :- GetMainManifestItem(json, t);
    for i := 0 to |t|
      invariant FirstNamed(t, item.config) == FirstNamed(t[i..], item.config)
    {
      if t[i].name == item.config {
        match json.diffIds(t[i].data) {
          case None => return Failure(BadConfig);
          case Some(ids) => return Success(ids);
        }
      }
      assert t[i..][1..] == t[i + 1..];
    }
    return Failure(ConfigNotFound);
  }
}
