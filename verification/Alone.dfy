/** One transfer that runs alone, from its request to its end: it does what a push does in one go. */
module Alone {
  import opened Wrappers
  import opened Tarball
  import opened Digests
  import opened Storage
  import opened Prune
  import opened Stitch
  import opened Cache
  import opened Delta
  import opened Receiver
  import opened Coherence

  lemma {:induction false} RunAppend(w: World, s: State, before: seq<Step>, after: seq<Step>)
    ensures Run(w, s, before + after) == Run(w, Run(w, s, before), after)
  {
    if after == [] {
      assert before + after == before;
    } else {
      var k := |after| - 1;
      RunAppend(w, s, before, after[..k]);
      assert (before + after)[..|before + after| - 1] == before + after[..k];
    }
  }

  lemma RunOneMore(w: World, s: State, steps: seq<Step>, step: Step)
    ensures Run(w, s, steps + [step]) == Do(w, Run(w, s, steps), step)
  {
    assert (steps + [step])[..|steps|] == steps;
  }

  /** Splitting a request lookup by lookup gives the lists of the partition. */
  lemma {:induction false} SplitsUpTo(w: World, s: State, id: nat, n: nat) returns (steps: seq<Step>)
    requires id in s.transfers && s.transfers[id].phase == Splitting(0, [], [])
    requires n <= |s.transfers[id].digests|
    ensures var ds := s.transfers[id].digests[..n];
            Run(w, s, steps) == WithPhase(s, id, Splitting(n, Outside(ds, s.known), Within(ds, s.known)))
    ensures forall step :: step in steps ==> step == Advance(id)
  {
    var digests := s.transfers[id].digests;
    if n == 0 {
      steps := [];
      assert digests[..0] == [];
      assert WithPhase(s, id, Splitting(0, [], [])) == s;
    } else {
      steps := SplitsUpTo(w, s, id, n - 1);
      RunOneMore(w, s, steps, Advance(id));
      assert digests[..n][..n - 1] == digests[..n - 1];
      LooksUp(w, Run(w, s, steps), s, id, n - 1);
      steps := steps + [Advance(id)];
    }
  }

  lemma LooksUp(w: World, now: State, s: State, id: nat, n: nat)
    requires id in s.transfers && n < |s.transfers[id].digests|
    requires now == var ds := s.transfers[id].digests[..n];
                    WithPhase(s, id, Splitting(n, Outside(ds, s.known), Within(ds, s.known)))
    ensures var ds := s.transfers[id].digests[..n + 1];
            Do(w, now, Advance(id)) == WithPhase(s, id, Splitting(n + 1, Outside(ds, s.known), Within(ds, s.known)))
  {
    var d, ds := s.transfers[id].digests[n], s.transfers[id].digests[..n];
    OneMoreLookup(s.transfers[id].digests, s.known, n);
    var missing, owned := Outside(ds, s.known), Within(ds, s.known);
    var next := if d in s.known then Splitting(n + 1, missing, owned + [d]) else Splitting(n + 1, missing + [d], owned);
    assert Advanced(w, now, now.transfers[id]) == (now, next);
    SamePhase(s, id, Splitting(n, missing, owned), next);
  }

  lemma OneMoreLookup(digests: seq<string>, known: set<string>, n: nat)
    requires n < |digests|
    ensures var d, ds, ds' := digests[n], digests[..n], digests[..n + 1];
            && Outside(ds', known) == (if d in known then Outside(ds, known) else Outside(ds, known) + [d])
            && Within(ds', known) == (if d in known then Within(ds, known) + [d] else Within(ds, known))
  {
    assert digests[..n + 1][..n] == digests[..n] && digests[..n + 1][n] == digests[n];
  }

  lemma SamePhase(s: State, id: nat, before: Phase, after: Phase)
    requires id in s.transfers
    ensures WithPhase(WithPhase(s, id, before), id, after) == WithPhase(s, id, after)
  {
    assert s.transfers[id := s.transfers[id].(phase := before)][id := s.transfers[id].(phase := after)]
        == s.transfers[id := s.transfers[id].(phase := after)];
  }

  /** The stitched image of this request, with the stores as they are. */
  function ImageOf(w: World, s: State, t: Tar, digests: seq<string>): Result<Tar, Error> {
    var payload :- Pruned(w.json, t, digests, Outside(digests, s.known));
    Stitched(w.json, payload, s.files, digests, Within(digests, s.known))
  }

  lemma Prunes(w: World, s: State, id: nat, missing: seq<string>, owned: seq<string>, payload: Tar)
    requires id in s.transfers && s.transfers[id].phase == Splitting(|s.transfers[id].digests|, missing, owned)
    requires Pruned(w.json, s.transfers[id].tar, s.transfers[id].digests, missing) == Success(payload)
    ensures Do(w, s, Advance(id)) == WithPhase(s, id, Downloaded(missing, owned, payload))
  {
  }

  lemma Stitches(w: World, s: State, id: nat, missing: seq<string>, owned: seq<string>, payload: Tar, image: Tar)
    requires id in s.transfers && s.transfers[id].phase == Downloaded(missing, owned, payload)
    requires Stitched(w.json, payload, s.files, s.transfers[id].digests, owned) == Success(image)
    ensures Do(w, s, Advance(id)) == WithPhase(s, id, Rebuilt(missing, image))
  {
  }

  /** Running a requested transfer alone up to the download, and up to the rebuilt image. */
  lemma DownloadsAlone(w: World, s: State, id: nat, payload: Tar) returns (steps: seq<Step>)
    requires id in s.transfers && s.transfers[id].phase == Splitting(0, [], [])
    requires Pruned(w.json, s.transfers[id].tar, s.transfers[id].digests, Outside(s.transfers[id].digests, s.known))
          == Success(payload)
    ensures var digests := s.transfers[id].digests;
            Run(w, s, steps)
            == WithPhase(s, id, Downloaded(Outside(digests, s.known), Within(digests, s.known), payload))
    ensures forall step :: step in steps ==> step == Advance(id)
  {
    var digests := s.transfers[id].digests;
    var missing, owned := Outside(digests, s.known), Within(digests, s.known);
    var lookups := SplitsUpTo(w, s, id, |digests|);
    assert digests[..|digests|] == digests;
    RunOneMore(w, s, lookups, Advance(id));
    Prunes(w, WithPhase(s, id, Splitting(|digests|, missing, owned)), id, missing, owned, payload);
    SamePhase(s, id, Splitting(|digests|, missing, owned), Downloaded(missing, owned, payload));
    steps := lookups + [Advance(id)];
  }

  lemma RebuildsAlone(w: World, s: State, id: nat, image: Tar) returns (steps: seq<Step>)
    requires id in s.transfers && s.transfers[id].phase == Splitting(0, [], [])
    requires ImageOf(w, s, s.transfers[id].tar, s.transfers[id].digests) == Success(image)
    ensures Run(w, s, steps) == WithPhase(s, id, Rebuilt(Outside(s.transfers[id].digests, s.known), image))
    ensures forall step :: step in steps ==> step == Advance(id)
  {
    var digests := s.transfers[id].digests;
    var missing, owned := Outside(digests, s.known), Within(digests, s.known);
    var payload := Pruned(w.json, s.transfers[id].tar, digests, missing).value;
    var before := DownloadsAlone(w, s, id, payload);
    RunOneMore(w, s, before, Advance(id));
    Stitches(w, WithPhase(s, id, Downloaded(missing, owned, payload)), id, missing, owned, payload, image);
    SamePhase(s, id, Downloaded(missing, owned, payload), Rebuilt(missing, image));
    steps := before + [Advance(id)];
  }

  function WithTransfer(s: State, id: nat, t: Tar, digests: seq<string>, phase: Phase): State {
    s.(transfers := s.transfers[id := Transfer(t, digests, phase)])
  }

  lemma RequestThen(w: World, s: State, id: nat, t: Tar, digests: seq<string>, rest: seq<Step>)
    requires id !in s.transfers && FirstInvalid(digests).None?
    ensures Run(w, s, [Request(id, t, digests)] + rest)
         == Run(w, WithTransfer(s, id, t, digests, Splitting(0, [], [])), rest)
  {
    var request := Request(id, t, digests);
    RunAppend(w, s, [request], rest);
    RunOneMore(w, s, [], request);
    assert [] + [request] == [request];
  }

  /** The same for a new transfer. */
  lemma Rebuilds(w: World, s: State, id: nat, t: Tar, digests: seq<string>, image: Tar) returns (steps: seq<Step>)
    requires id !in s.transfers && FirstInvalid(digests).None? && ImageOf(w, s, t, digests) == Success(image)
    ensures Run(w, s, steps) == WithTransfer(s, id, t, digests, Rebuilt(Outside(digests, s.known), image))
    ensures forall step :: step in steps ==> step == Request(id, t, digests) || step == Advance(id)
  {
    var asked := WithTransfer(s, id, t, digests, Splitting(0, [], []));
    var rest := RebuildsAlone(w, asked, id, image);
    RequestThen(w, s, id, t, digests, rest);
    steps := [Request(id, t, digests)] + rest;
    SameTransfer(s, id, t, digests, Splitting(0, [], []), Rebuilt(Outside(digests, s.known), image));
  }

  lemma SameTransfer(s: State, id: nat, t: Tar, digests: seq<string>, before: Phase, after: Phase)
    ensures WithPhase(WithTransfer(s, id, t, digests, before), id, after) == WithTransfer(s, id, t, digests, after)
  {
    assert s.transfers[id := Transfer(t, digests, before)][id := Transfer(t, digests, after)]
        == s.transfers[id := Transfer(t, digests, after)];
  }

  /** Scanning alone: the files are those of a scan in which nothing fails. */
  lemma {:induction false} ScansAlone(w: World, s: State, id: nat, layerMap: map<string, string>, k: nat)
    returns (steps: seq<Step>)
    requires id in s.transfers && s.transfers[id].phase.Extracting?
    requires s.transfers[id].phase.next == 0 && !s.transfers[id].phase.open && k <= |s.transfers[id].phase.image|
    requires LayerDigests(w.json, s.transfers[id].phase.image, s.transfers[id].digests) == Success(layerMap)
    ensures Run(w, s, steps) == Scanning(s, id, layerMap, k)
    ensures forall step :: step in steps ==> step == Advance(id)
  {
    var image := s.transfers[id].phase.image;
    if k == 0 {
      steps := [];
      assert image[..0] == [] && s.transfers[id := s.transfers[id]] == s.transfers;
    } else {
      steps := ScansAlone(w, s, id, layerMap, k - 1);
      var now := Scanning(s, id, layerMap, k - 1);
      RunOneMore(w, s, steps, Advance(id));
      assert image[..k][..k - 1] == image[..k - 1] && image[..k][k - 1] == image[k - 1];
      if image[k - 1].name in layerMap {
        RunOneMore(w, s, steps + [Advance(id)], Advance(id));
        WritesOneEntry(w, s, id, layerMap, k - 1);
        steps := steps + [Advance(id)] + [Advance(id)];
      } else {
        PassesOneEntry(w, s, id, layerMap, k - 1);
        steps := steps + [Advance(id)];
      }
    }
  }

  function AtEntry(phase: Phase, k: nat): Phase
    requires phase.Extracting?
  {
    Extracting(phase.missing, phase.image, k, false)
  }

  /** The first k entries are scanned. */
  function Scanning(s: State, id: nat, layerMap: map<string, string>, k: nat): State
    requires id in s.transfers && s.transfers[id].phase.Extracting? && k <= |s.transfers[id].phase.image|
  {
    WithPhase(s.(files := Extracted(s.files, s.transfers[id].phase.image[..k], layerMap)), id,
              AtEntry(s.transfers[id].phase, k))
  }

  lemma PassesOneEntry(w: World, s: State, id: nat, layerMap: map<string, string>, k: nat)
    requires id in s.transfers && s.transfers[id].phase.Extracting? && !s.transfers[id].phase.open
    requires k < |s.transfers[id].phase.image| && s.transfers[id].phase.image[k].name !in layerMap
    requires LayerDigests(w.json, s.transfers[id].phase.image, s.transfers[id].digests) == Success(layerMap)
    ensures Do(w, Scanning(s, id, layerMap, k), Advance(id)) == Scanning(s, id, layerMap, k + 1)
  {
    var image := s.transfers[id].phase.image;
    assert image[..k + 1][..k] == image[..k] && image[..k + 1][k] == image[k];
    var now := Scanning(s, id, layerMap, k);
    var phase := AtEntry(s.transfers[id].phase, k + 1);
    assert Advanced(w, now, now.transfers[id]) == (now, phase);
    SamePhase(s.(files := now.files), id, AtEntry(s.transfers[id].phase, k), phase);
  }

  lemma WritesOneEntry(w: World, s: State, id: nat, layerMap: map<string, string>, k: nat)
    requires id in s.transfers && s.transfers[id].phase.Extracting? && !s.transfers[id].phase.open
    requires k < |s.transfers[id].phase.image| && s.transfers[id].phase.image[k].name in layerMap
    requires LayerDigests(w.json, s.transfers[id].phase.image, s.transfers[id].digests) == Success(layerMap)
    ensures Do(w, Do(w, Scanning(s, id, layerMap, k), Advance(id)), Advance(id)) == Scanning(s, id, layerMap, k + 1)
  {
    var image := s.transfers[id].phase.image;
    assert image[..k + 1][..k] == image[..k] && image[..k + 1][k] == image[k];
    var now := Scanning(s, id, layerMap, k);
    assert Target(w, now.transfers[id]) == Some(layerMap[image[k].name]);
    CompletingForgets(w, now, Advance(id));
    CompletesOpen(w, now, id, layerMap[image[k].name]);
    SamePhase(s.(files := Extracted(s.files, image[..k + 1], layerMap)), id, AtEntry(s.transfers[id].phase, k),
              AtEntry(s.transfers[id].phase, k + 1));
  }

  lemma CompletesOpen(w: World, s: State, id: nat, d: string)
    requires id in s.transfers && s.transfers[id].phase.Extracting? && !s.transfers[id].phase.open
    requires Target(w, s.transfers[id]) == Some(d)
    ensures var phase := s.transfers[id].phase;
            Do(w, WithPhase(s, id, phase.(open := true)), Advance(id))
            == WithPhase(WithFile(s, d, phase.image[phase.next].data), id, AtEntry(phase, phase.next + 1))
  {
    var phase := s.transfers[id].phase;
    var begun := WithPhase(s, id, phase.(open := true));
    assert Target(w, begun.transfers[id]) == Some(d);
    SamePhase(WithFile(s, d, phase.image[phase.next].data), id, phase.(open := true), AtEntry(phase, phase.next + 1));
  }

  /** A disk on which no write fails. */
  const GOOD_DISK: Disk := _ => Writes

  /** MAIN: from the rebuilt image on, a transfer that runs alone is completed with that image and leaves
      the stores exactly as caching in one go does. */
  lemma CachesAlone(w: World, s: State, id: nat) returns (steps: seq<Step>)
    requires id in s.transfers && s.transfers[id].phase.Rebuilt?
    ensures var tr, now := s.transfers[id], Run(w, s, steps);
            && (now.known, now.files)
                 == Updated(w.json, tr.phase.image, tr.digests, tr.phase.missing, s.known, s.files, GOOD_DISK)
            && now.transfers == s.transfers[id := tr.(phase := Completed(tr.phase.image))]
    ensures forall step :: step in steps ==> step == Advance(id)
  {
    var tr := s.transfers[id];
    var image, missing := tr.phase.image, tr.phase.missing;
    RunOneMore(w, s, [], Advance(id));
    assert [] + [Advance(id)] == [Advance(id)];
    if missing == [] || LayerDigests(w.json, image, tr.digests).Failure? {
      steps := [Advance(id)];
    } else {
      var layerMap := LayerDigests(w.json, image, tr.digests).value;
      var extracting := WithPhase(s, id, Extracting(missing, image, 0, false));
      assert Do(w, s, Advance(id)) == extracting;
      var scan := ScansAlone(w, extracting, id, layerMap, |image|);
      assert image[..|image|] == image;
      ScanCompletes(s.files, image, layerMap, GOOD_DISK);
      RunAppend(w, s, [Advance(id)], scan);
      RunOneMore(w, s, [Advance(id)] + scan, Advance(id));
      MarksAlone(w, extracting, id, layerMap);
      steps := [Advance(id)] + scan + [Advance(id)];
    }
  }

  lemma MarksAlone(w: World, s: State, id: nat, layerMap: map<string, string>)
    requires id in s.transfers && s.transfers[id].phase.Extracting?
    ensures var phase := s.transfers[id].phase;
            var now := Do(w, Scanning(s, id, layerMap, |phase.image|), Advance(id));
            && now.known == s.known + (set d | d in phase.missing)
            && now.files == Extracted(s.files, phase.image[..|phase.image|], layerMap)
            && now.transfers == s.transfers[id := s.transfers[id].(phase := Completed(phase.image))]
  {
  }

  /** MAIN: a request that runs alone does what the push of its image does: the same image is delivered,
      and the same layers are known and cached. */
  lemma RunsAsPush(w: World, s: State, id: nat, t: Tar) returns (steps: seq<Step>)
    requires id !in s.transfers && Push(w.json, t, s.known, s.files, GOOD_DISK).Success?
    ensures var receipt, now := Push(w.json, t, s.known, s.files, GOOD_DISK).value, Run(w, s, steps);
            && now.known == receipt.known && now.files == receipt.files
            && now.transfers == s.transfers[id := Transfer(t, Offered(w.json, t), Completed(receipt.rebuilt))]
    ensures forall step :: step in steps ==> step == Request(id, t, Offered(w.json, t)) || step == Advance(id)
  {
    var digests := Offered(w.json, t);
    PushIsImageThenUpdate(w, s, t);
    var image := ImageOf(w, s, t, digests).value;
    var before := Rebuilds(w, s, id, t, digests, image);
    var rebuilt := WithTransfer(s, id, t, digests, Rebuilt(Outside(digests, s.known), image));
    var after := CachesAlone(w, rebuilt, id);
    RunAppend(w, s, before, after);
    CompletedOver(s, id, t, digests, Rebuilt(Outside(digests, s.known), image), image);
    steps := before + after;
  }

  lemma PushIsImageThenUpdate(w: World, s: State, t: Tar)
    requires Push(w.json, t, s.known, s.files, GOOD_DISK).Success?
    ensures var receipt, digests := Push(w.json, t, s.known, s.files, GOOD_DISK).value, Offered(w.json, t);
            && FirstInvalid(digests).None? && ImageOf(w, s, t, digests) == Success(receipt.rebuilt)
            && (receipt.known, receipt.files)
                 == Updated(w.json, receipt.rebuilt, digests, Outside(digests, s.known), s.known, s.files, GOOD_DISK)
  {
  }

  lemma CompletedOver(s: State, id: nat, t: Tar, digests: seq<string>, before: Phase, image: Tar)
    ensures WithTransfer(s, id, t, digests, before).transfers[id := Transfer(t, digests, Completed(image))]
         == s.transfers[id := Transfer(t, digests, Completed(image))]
  {
  }

  /** MAIN: from any coherent stores, whatever other transfers are under way, there is a run of requests
      and transfer steps after which every layer of a well-formed image is known, provided its main item
      comes first or nothing of it is missing; the image is delivered as it was sent. */
  lemma PushTeaches(w: World, s: State, id: nat, t: Tar) returns (steps: seq<Step>)
    requires id !in s.transfers && Coherent(w.truth, s.known, s.files)
    requires DigestsOf(w.json, t).Success? && WellFormed(w.json, w.truth, t, DigestsOf(w.json, t).value)
    requires forall d :: d in DigestsOf(w.json, t).value ==> IsDigest(d)
    requires MainIndex(ManifestOf(w.json, t).value) == Some(0)
             || forall d :: d in DigestsOf(w.json, t).value ==> d in s.known
    ensures forall d :: d in DigestsOf(w.json, t).value ==> d in Run(w, s, steps).known
    ensures s.known <= Run(w, s, steps).known
    ensures id in Run(w, s, steps).transfers && Run(w, s, steps).transfers[id].phase.Completed?
    ensures Contents(Run(w, s, steps).transfers[id].phase.image) == Contents(t)
    ensures forall step :: step in steps ==> step == Request(id, t, DigestsOf(w.json, t).value) || step == Advance(id)
  {
    PushDelivers(w.json, w.truth, t, s.known, s.files, GOOD_DISK);
    steps := RunsAsPush(w, s, id, t);
    TeachesAll(w.json, w.truth, t, s.known, s.files);
  }

  lemma TeachesAll(json: Json, truth: string -> Bytes, t: Tar, known: set<string>, files: map<string, Bytes>)
    requires Coherent(truth, known, files)
    requires DigestsOf(json, t).Success? && WellFormed(json, truth, t, DigestsOf(json, t).value)
    requires forall d :: d in DigestsOf(json, t).value ==> IsDigest(d)
    requires MainIndex(ManifestOf(json, t).value) == Some(0)
             || forall d :: d in DigestsOf(json, t).value ==> d in known
    ensures var r := Push(json, t, known, files, GOOD_DISK);
            && r.Success? && known <= r.value.known
            && forall d :: d in DigestsOf(json, t).value ==> d in r.value.known
  {
    PushDelivers(json, truth, t, known, files, GOOD_DISK);
    var digests := DigestsOf(json, t).value;
    assert forall k: nat :: GOOD_DISK(k) == Writes;
    if Outside(digests, known) != [] {
      assert Outside(digests, known)[0] in Outside(digests, known);
    }
  }
}
