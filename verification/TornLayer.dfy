/** What a full disk can do to a layer the receiver already had: a run that ends with a wrong image. */
module TornLayer {
  import opened Wrappers
  import opened Tarball
  import opened Digests
  import opened Prune
  import opened Stitch
  import opened Cache
  import opened Delta
  import opened Receiver
  import opened Coherence
  import opened Alone

  /** Only this transfer moves, to this phase; the ledger stays and no cached file is removed. */
  ghost predicate Moves(s: State, now: State, id: nat, phase: Phase)
    requires id in s.transfers
  {
    && now.known == s.known && s.files.Keys <= now.files.Keys
    && now.transfers == s.transfers[id := s.transfers[id].(phase := phase)]
  }

  /** Scanning up to any entry. */
  lemma {:induction false} ScansUpTo(w: World, s: State, id: nat, k: nat) returns (steps: seq<Step>)
    requires id in s.transfers && s.transfers[id].phase.Extracting?
    requires s.transfers[id].phase.next == 0 && !s.transfers[id].phase.open && k <= |s.transfers[id].phase.image|
    ensures Moves(s, Run(w, s, steps), id, s.transfers[id].phase.(next := k))
    ensures forall step :: step in steps ==> step == Advance(id)
  {
    if k == 0 {
      steps := [];
      assert s.transfers[id := s.transfers[id]] == s.transfers;
    } else {
      steps := ScansUpTo(w, s, id, k - 1);
      var now := Run(w, s, steps);
      RunOneMore(w, s, steps, Advance(id));
      if Target(w, now.transfers[id]).None? {
        steps := steps + [Advance(id)];
      } else {
        RunOneMore(w, s, steps + [Advance(id)], Advance(id));
        WritesEntry(w, now, id);
        steps := steps + [Advance(id)] + [Advance(id)];
      }
    }
  }

  lemma WritesEntry(w: World, s: State, id: nat)
    requires id in s.transfers && s.transfers[id].phase.Extracting? && !s.transfers[id].phase.open
    requires Target(w, s.transfers[id]).Some?
    ensures Moves(s, Do(w, Do(w, s, Advance(id)), Advance(id)), id,
                  s.transfers[id].phase.(next := s.transfers[id].phase.next + 1))
  {
    OpensOnce(w, s, Advance(id));
    var begun := Do(w, s, Advance(id));
    assert Target(w, begun.transfers[id]) == Target(w, s.transfers[id]);
  }

  /** Entry k of this image is cached as layer d. */
  predicate CachesAt(w: World, image: Tar, digests: seq<string>, k: nat, d: string) {
    var layerMap := LayerDigests(w.json, image, digests);
    layerMap.Success? && k < |image| && image[k].name in layerMap.value && layerMap.value[image[k].name] == d
  }

  /** The entry of the image that is cached as this layer. */
  lemma HasEntry(w: World, t: Tar, digests: seq<string>, image: Tar, d: string) returns (k: nat)
    requires WellFormed(w.json, w.truth, t, digests) && MainIndex(ManifestOf(w.json, t).value) == Some(0)
    requires Contents(image) == Contents(t) && ManifestOf(w.json, image) == ManifestOf(w.json, t) && d in digests
    ensures CachesAt(w, image, digests, k, d)
  {
    var layers := Layers(w, t);
    assert MainItemOf(w.json, image) == MainItemOf(w.json, t);
    CachingReadsMainLayers(w.json, image, digests);
    var i :| 0 <= i < |digests| && digests[i] == d;
    k := ContentsAt(image, layers[i]);
    LastWinsHas(layers, digests, i);
    var j := LastWinsAt(layers, digests, layers[i]);
  }

  /** Creating the file of an already cached layer, and giving up there. */
  lemma TearsAndGivesUp(w: World, s: State, id: nat, d: string)
    requires id in s.transfers && Opens(w, s, Advance(id)) && Target(w, s.transfers[id]) == Some(d)
    ensures var now := Do(w, Do(w, s, Advance(id)), GiveUpCaching(id));
            && now.known == s.known && now.files == s.files[CacheDir(d) := []]
            && now.transfers.Keys == s.transfers.Keys
  {
    OpensOnce(w, s, Advance(id));
  }

  /** From the rebuilt image on: everything before this layer is cached, and its file is left empty. */
  lemma CachesUpTo(w: World, s: State, id: nat, k: nat, d: string) returns (steps: seq<Step>)
    requires id in s.transfers && s.transfers[id].phase.Rebuilt? && s.transfers[id].phase.missing != []
    requires CachesAt(w, s.transfers[id].phase.image, s.transfers[id].digests, k, d)
    ensures var now := Run(w, s, steps);
            && now.known == s.known && CacheDir(d) in now.files && now.files[CacheDir(d)] == []
            && s.files.Keys <= now.files.Keys && now.transfers.Keys == s.transfers.Keys
    ensures forall step :: step in steps ==> step == Advance(id) || step == GiveUpCaching(id)
  {
    var tr := s.transfers[id];
    var extracting := WithPhase(s, id, Extracting(tr.phase.missing, tr.phase.image, 0, false));
    assert Do(w, s, Advance(id)) == extracting;
    RunOneMore(w, s, [], Advance(id));
    assert [] + [Advance(id)] == [Advance(id)];
    var scan := ScansUpTo(w, extracting, id, k);
    RunAppend(w, s, [Advance(id)], scan);
    var before := [Advance(id)] + scan;
    TearsAndGivesUp(w, Run(w, s, before), id, d);
    RunOneMore(w, s, before, Advance(id));
    RunOneMore(w, s, before + [Advance(id)], GiveUpCaching(id));
    steps := before + [Advance(id)] + [GiveUpCaching(id)];
  }

  /** The first push: it has one layer missing, and stops while it rewrites one the receiver had. */
  lemma FirstPushTears(w: World, s: State, t: Tar, digests: seq<string>, d: string) returns (steps: seq<Step>)
    requires Coherent(w.truth, s.known, s.files) && s.transfers == map[]
    requires WellFormed(w.json, w.truth, t, digests) && FirstInvalid(digests).None?
    requires MainIndex(ManifestOf(w.json, t).value) == Some(0)
    requires Outside(digests, s.known) != [] && d in digests
    ensures var now := Run(w, s, steps);
            && now.known == s.known && CacheDir(d) in now.files && now.files[CacheDir(d)] == []
            && s.files.Keys <= now.files.Keys && 1 !in now.transfers
    ensures forall step :: step in steps ==>
              step == Request(0, t, digests) || step == Advance(0) || step == GiveUpCaching(0)
  {
    var image, k := ImageHasEntry(w, s, t, digests, d);
    steps := PushTears(w, s, t, digests, d, image, k);
  }

  lemma ImageHasEntry(w: World, s: State, t: Tar, digests: seq<string>, d: string) returns (image: Tar, k: nat)
    requires Coherent(w.truth, s.known, s.files) && WellFormed(w.json, w.truth, t, digests)
    requires MainIndex(ManifestOf(w.json, t).value) == Some(0) && d in digests
    ensures ImageOf(w, s, t, digests) == Success(image) && CachesAt(w, image, digests, k, d)
  {
    ReceiveRebuilds(w.json, w.truth, t, digests, s.known, s.files);
    image := ImageOf(w, s, t, digests).value;
    k := HasEntry(w, t, digests, image, d);
  }

  lemma PushTears(w: World, s: State, t: Tar, digests: seq<string>, d: string, image: Tar, k: nat)
    returns (steps: seq<Step>)
    requires s.transfers == map[] && FirstInvalid(digests).None? && Outside(digests, s.known) != []
    requires ImageOf(w, s, t, digests) == Success(image) && CachesAt(w, image, digests, k, d)
    ensures var now := Run(w, s, steps);
            && now.known == s.known && CacheDir(d) in now.files && now.files[CacheDir(d)] == []
            && s.files.Keys <= now.files.Keys && 1 !in now.transfers
    ensures forall step :: step in steps ==>
              step == Request(0, t, digests) || step == Advance(0) || step == GiveUpCaching(0)
  {
    var first := Rebuilds(w, s, 0, t, digests, image);
    var rebuilt := WithTransfer(s, 0, t, digests, Rebuilt(Outside(digests, s.known), image));
    var rest := CachesUpTo(w, rebuilt, 0, k, d);
    RunAppend(w, s, first, rest);
    steps := first + rest;
  }

  /** MAIN: for every image with a missing layer and one the receiver has, whose main item comes first,
      the disk can fail so that the next push of this image is rebuilt with other contents. */
  lemma TornLayerIsShipped(w: World, s: State, t: Tar, digests: seq<string>, d: string) returns (steps: seq<Step>)
    requires Coherent(w.truth, s.known, s.files) && s.transfers == map[]
    requires WellFormed(w.json, w.truth, t, digests) && FirstInvalid(digests).None?
    requires MainIndex(ManifestOf(w.json, t).value) == Some(0)
    requires Outside(digests, s.known) != [] && d in digests && d in s.known && w.truth(d) != []
    ensures forall step :: step in steps ==>
              step == Request(0, t, digests) || step == Advance(0) || step == GiveUpCaching(0)
              || step == Request(1, t, digests) || step == Advance(1)
    ensures var now := Run(w, s, steps);
            && !Coherent(w.truth, now.known, now.files)
            && 1 in now.transfers && now.transfers[1].tar == t
            && now.transfers[1].phase.Rebuilt? && Contents(now.transfers[1].phase.image) != Contents(t)
  {
    var first := FirstPushTears(w, s, t, digests, d);
    var torn := Run(w, s, first);
    var missing, owned := Outside(digests, s.known), Within(digests, s.known);
    forall x | x in owned ensures x in digests && CacheDir(x) in torn.files {
      assert HasTruth(w.truth, s.files, x);
    }
    StitchIsRightIffFilesAreTrue(w.json, w.truth, torn.files, t, digests, missing, owned);
    PruneThenStitchSucceeds(w.json, w.truth, torn.files, t, digests, missing, owned);
    assert d in owned && !HasTruth(w.truth, torn.files, d);
    var second := Rebuilds(w, torn, 1, t, digests, ImageOf(w, torn, t, digests).value);
    RunAppend(w, s, first, second);
    steps := first + second;
  }
}
