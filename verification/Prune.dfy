/** The sender drops the tar entries of the layers the receiver owns. */
module Prune {
  import opened Wrappers
  import opened Tarball

  /** The entries outside a set of names, in order. */
  function Kept(t: Tar, skip: set<string>): Tar {
    if t == [] then []
    else Kept(t[..|t| - 1], skip) + (if t[|t| - 1].name in skip then [] else [t[|t| - 1]])
  }

  /** `picks` lists, in increasing order, the positions of t that satisfy nothing of `skip`, and
      out is t read at those positions. */
  ghost predicate IsSelection(t: Tar, skip: set<string>, picks: seq<nat>, out: Tar) {
    && |picks| == |out|
    && (forall k :: 0 <= k < |picks| ==> picks[k] < |t| && t[picks[k]] == out[k])
    && (forall j, k :: 0 <= j < k < |picks| ==> picks[j] < picks[k])
    && (forall i: nat :: i < |t| ==> (i in picks <==> t[i].name !in skip))
  }

  lemma {:induction false} KeptIsSelection(t: Tar, skip: set<string>) returns (picks: seq<nat>)
    ensures IsSelection(t, skip, picks, Kept(t, skip))
  {
    if t == [] {
      picks := [];
    } else {
      var k := |t| - 1;
      picks := KeptIsSelection(t[..k], skip);
      SelectingOneMore(t[..k], t[k], skip, picks, Kept(t[..k], skip));
      assert t == t[..k] + [t[k]];
      if t[k].name !in skip {
        picks := picks + [k];
      }
    }
  }

  lemma SelectingOneMore(t: Tar, e: Entry, skip: set<string>, picks: seq<nat>, out: Tar)
    requires IsSelection(t, skip, picks, out)
    ensures if e.name in skip then IsSelection(t + [e], skip, picks, out)
            else IsSelection(t + [e], skip, picks + [|t|], out + [e])
  {
    assert forall k :: 0 <= k < |picks| ==> picks[k] < |t|;
    assert |t| !in picks;
  }

  function TotalBytes(t: Tar): nat {
    if t == [] then 0 else TotalBytes(t[..|t| - 1]) + |t[|t| - 1].data|
  }

  /** Every name that occurs in t. */
  function Names(t: Tar): set<string> {
    set i | 0 <= i < |t| :: t[i].name
  }

  /** Nothing is lost or duplicated: content bytes are kept or dropped. */
  lemma {:induction false} BytesConserved(t: Tar, skip: set<string>)
    ensures TotalBytes(t) == TotalBytes(Kept(t, skip)) + TotalBytes(Kept(t, Names(t) - skip))
  {
    BytesConservedUnder(t, skip, Names(t) - skip);
  }

  lemma {:induction false} BytesConservedUnder(t: Tar, skip: set<string>, rest: set<string>)
    requires forall i :: 0 <= i < |t| ==> (t[i].name in rest <==> t[i].name !in skip)
    ensures TotalBytes(t) == TotalBytes(Kept(t, skip)) + TotalBytes(Kept(t, rest))
  {
    if t != [] {
      var k := |t| - 1;
      BytesConservedUnder(t[..k], skip, rest);
      KeptBytes(t, skip);
      KeptBytes(t, rest);
    }
  }

  lemma KeptBytes(t: Tar, skip: set<string>)
    requires t != []
    ensures TotalBytes(Kept(t, skip))
         == TotalBytes(Kept(t[..|t| - 1], skip)) + if t[|t| - 1].name in skip then 0 else |t[|t| - 1].data|
  {
    var a := Kept(t[..|t| - 1], skip);
    if t[|t| - 1].name in skip {
      assert Kept(t, skip) == a;
    } else {
      assert Kept(t, skip)[..|a|] == a;
    }
  }

  lemma {:induction false} KeptContents(t: Tar, skip: set<string>)
    ensures Contents(Kept(t, skip)) == Contents(t) - skip
  {
    if t != [] {
      var k := |t| - 1;
      KeptContents(t[..k], skip);
      if t[k].name in skip {
        assert Kept(t, skip) == Kept(t[..k], skip);
      } else {
        ContentsOfOneMore(Kept(t[..k], skip), t[k]);
      }
    }
  }

  lemma {:induction false} KeptMembers(t: Tar, skip: set<string>)
    ensures forall e :: e in Kept(t, skip) <==> e in t && e.name !in skip
  {
    if t != [] {
      var k := |t| - 1;
      KeptMembers(t[..k], skip);
      assert t == t[..k] + [t[k]];
    }
  }

  /** Pruning a name other than manifest.json leaves every first-match reading of it alone. */
  lemma {:induction false} KeptFirstNamed(t: Tar, skip: set<string>, name: string)
    requires name !in skip
    ensures FirstNamed(Kept(t, skip), name) == FirstNamed(t, name)
  {
    if t != [] {
      var k := |t| - 1;
      KeptFirstNamed(t[..k], skip, name);
      assert t == t[..k] + [t[k]];
      FirstNamedOfOneMore(t[..k], Kept(t[..k], skip), t[k], skip, name);
    }
  }

  lemma FirstNamedOfOneMore(t: Tar, kept: Tar, e: Entry, skip: set<string>, name: string)
    requires name !in skip && FirstNamed(kept, name) == FirstNamed(t, name)
    ensures FirstNamed(kept + (if e.name in skip then [] else [e]), name) == FirstNamed(t + [e], name)
  {
    FirstNamedAppend(t, [e], name);
    FirstNamedAppend(kept, [e], name);
    assert kept + [] == kept;
  }

  lemma {:induction false} FirstNamedAppend(a: Tar, b: Tar, name: string)
    ensures FirstNamed(a + b, name) == if FirstNamed(a, name).Some? then FirstNamed(a, name) else FirstNamed(b, name)
  {
    if a == [] {
      assert a + b == b;
    } else {
      assert (a + b)[1..] == a[1..] + b;
      FirstNamedAppend(a[1..], b, name);
    }
  }

  /** The paths of the layers that the receiver did not ask for. */
  function SkipSet(layers: seq<string>, digests: seq<string>, missing: seq<string>): set<string>
    requires |layers| == |digests|
  {
    set i | 0 <= i < |layers| && digests[i] !in missing :: layers[i]
  }

  method BuildSkipSet(layers: seq<string>, digests: seq<string>, missing: seq<string>) returns (skip: set<string>)
    requires |layers| == |digests|
    ensures skip == SkipSet(layers, digests, missing)
  {
    var missingSet := {};
    for i := 0 to |missing|
      invariant missingSet == set d | d in missing[..i]
    {
      missingSet := missingSet + {missing[i]};
    }
    skip := {};
    for i := 0 to |layers|
      invariant skip == SkipSet(layers[..i], digests[..i], missing)
    {
      if digests[i] !in missingSet {
        skip := skip + {layers[i]};
      }
      assert SkipSet(layers[..i + 1], digests[..i + 1], missing)
          == SkipSet(layers[..i], digests[..i], missing) + (if digests[i] in missing then {} else {layers[i]}) by {
        SkipSetStep(layers, digests, missing, i);
      }
    }
    assert layers[..|layers|] == layers && digests[..|digests|] == digests;
  }

  lemma SkipSetStep(layers: seq<string>, digests: seq<string>, missing: seq<string>, i: nat)
    requires i < |layers| == |digests|
    ensures SkipSet(layers[..i + 1], digests[..i + 1], missing)
         == SkipSet(layers[..i], digests[..i], missing) + (if digests[i] in missing then {} else {layers[i]})
  {
    var a, b := SkipSet(layers[..i], digests[..i], missing), SkipSet(layers[..i + 1], digests[..i + 1], missing);
    forall p | p in b ensures p in a || (digests[i] !in missing && p == layers[i]) {
      var j :| 0 <= j < i + 1 && digests[..i + 1][j] !in missing && layers[..i + 1][j] == p;
      if j < i { assert digests[..i][j] !in missing && layers[..i][j] == p; }
    }
    forall p | p in a ensures p in b {
      var j :| 0 <= j < i && digests[..i][j] !in missing && layers[..i][j] == p;
      assert digests[..i + 1][j] !in missing && layers[..i + 1][j] == p;
    }
    if digests[i] !in missing {
      assert digests[..i + 1][i] !in missing && layers[..i + 1][i] == layers[i];
    }
  }

  method CopyTarExcluding(t: Tar, skip: set<string>) returns (out: Tar)
    ensures out == Kept(t, skip)
    ensures exists picks :: IsSelection(t, skip, picks, out)
  {
    out := [];
    for i := 0 to |t|
      invariant out == Kept(t[..i], skip)
    {
      assert t[..i + 1][..i] == t[..i];
      if t[i].name !in skip {
        out := out + [t[i]];
      }
    }
    assert t[..|t|] == t;
    var _ := KeptIsSelection(t, skip);
  }

  /** PruneTarball as a value: it refuses a digest list of another length than the main layers. */
  function Pruned(json: Json, t: Tar, digests: seq<string>, missing: seq<string>): Result<Tar, Error> {
    var item :- MainItemOf(json, t);
    if |item.layers| != |digests| then Failure(LayerCountMismatch)
    else Success(Kept(t, SkipSet(item.layers, digests, missing)))
  }

  method PruneTarball(json: Json, t: Tar, digests: seq<string>, missing: seq<string>) returns (r: Result<Tar, Error>)
    ensures r == Pruned(json, t, digests, missing)
  {
    var item :- GetMainManifestItem(json, t);
    if |item.layers| != |digests| {
      return Failure(LayerCountMismatch);
    }
    var skip := BuildSkipSet(item.layers, digests, missing);
    var out := CopyTarExcluding(t, skip);
    return Success(out);
  }

  /** Pruning is refused exactly for an unreadable manifest or a digest list of another length. */
  lemma PruneRefusesIff(json: Json, t: Tar, digests: seq<string>, missing: seq<string>)
    ensures Pruned(json, t, digests, missing).Success?
       <==> exists items: seq<ManifestItem>, k: nat ::
              ListsItems(json, t, items) && IsFirstLongest(items, k) && |items[k].layers| == |digests|
    ensures Pruned(json, t, digests, missing) == Failure(LayerCountMismatch)
       <==> exists items: seq<ManifestItem>, k: nat ::
              ListsItems(json, t, items) && IsFirstLongest(items, k) && |items[k].layers| != |digests|
    ensures Pruned(json, t, digests, missing) == Failure(NoLayers) <==> HasNoLayers(json, t)
  {
    ManifestIsRead(json, t);
    if ManifestOf(json, t).Success? {
      var items := ManifestOf(json, t).value;
      assert forall other :: ListsItems(json, t, other) <==> other == items;
      if MainIndex(items).Some? {
        MainItemIs(json, t, items, MainIndex(items).value);
        assert forall j: nat :: IsFirstLongest(items, j) ==> j == MainIndex(items).value;
      }
    }
  }

  /** What pruning does to the loaded files: a file disappears exactly when it is the path of a
      layer that was not asked for, and every other file keeps its bytes. */
  lemma PruneIsExact(json: Json, t: Tar, digests: seq<string>, missing: seq<string>)
    requires Pruned(json, t, digests, missing).Success?
    ensures var layers := MainItemOf(json, t).value.layers;
            var out := Pruned(json, t, digests, missing).value;
            && |layers| == |digests|
            && (forall n :: n in Contents(out) <==>
                  n in Contents(t) && !exists i :: 0 <= i < |layers| && layers[i] == n && digests[i] !in missing)
            && (forall n :: n in Contents(out) ==> Contents(out)[n] == Contents(t)[n])
  {
    var layers := MainItemOf(json, t).value.layers;
    KeptContents(t, SkipSet(layers, digests, missing));
  }

  /** A layer that was asked for survives, provided one path never carries two digests. */
  lemma MissingLayersSurvive(json: Json, t: Tar, digests: seq<string>, missing: seq<string>, i: nat)
    requires Pruned(json, t, digests, missing).Success?
    requires i < |digests| && digests[i] in missing
    requires MainItemOf(json, t).value.layers[i] in Contents(t)
    ensures var layers := MainItemOf(json, t).value.layers;
            var out := Pruned(json, t, digests, missing).value;
            (layers[i] in Contents(out) && Contents(out)[layers[i]] == Contents(t)[layers[i]])
            <==> forall j :: 0 <= j < |layers| && layers[j] == layers[i] ==> digests[j] in missing
  {
    PruneIsExact(json, t, digests, missing);
  }
}
