/** What every run of receives guarantees, and which steps do lasting harm: a file that is only being
    rewritten heals, one that is left torn or stitched while torn does not. */
module Harm {
  import opened Wrappers
  import opened Tarball
  import opened Digests
  import opened Prune
  import opened Stitch
  import opened Cache
  import opened Delta
  import opened Receiver
  import opened Coherence

  //
  // In every run the files are there, whatever they hold.
  //

  /** A transfer has this file open. */
  predicate OpenOn(w: World, tr: Transfer, d: string) {
    tr.phase.Extracting? && tr.phase.open && Target(w, tr) == Some(d)
  }

  ghost predicate HasFiles(w: World, files: map<string, Bytes>, tr: Transfer) {
    HasShape(w, tr) && forall d :: Relies(w, tr, d) || OpenOn(w, tr, d) ==> CacheDir(d) in files
  }

  ghost predicate FilesExist(w: World, s: State) {
    && (forall d :: d in s.known ==> IsDigest(d) && CacheDir(d) in s.files)
    && (forall id :: id in s.transfers ==> HasFiles(w, s.files, s.transfers[id]))
  }

  ghost predicate AdvancedHasFiles(w: World, s: State, tr: Transfer) {
    var (s', phase) := Advanced(w, s, tr);
    && (forall d :: d in s'.known ==> IsDigest(d) && CacheDir(d) in s'.files)
    && s.files.Keys <= s'.files.Keys && s'.transfers == s.transfers
    && HasFiles(w, s'.files, tr.(phase := phase))
  }

  ghost predicate FilesReady(w: World, s: State, tr: Transfer) {
    (forall d :: d in s.known ==> IsDigest(d) && CacheDir(d) in s.files) && HasFiles(w, s.files, tr)
  }

  lemma LookingUpHasFiles(w: World, s: State, tr: Transfer)
    requires FilesReady(w, s, tr) && tr.phase.Splitting? && tr.phase.next < |tr.digests|
    ensures AdvancedHasFiles(w, s, tr)
  {
    var n := tr.phase.next;
    var next := tr.(phase := Advanced(w, s, tr).1);
    assert tr.digests[..n + 1] == tr.digests[..n] + [tr.digests[n]];
    assert forall d :: Relies(w, next, d) ==> Relies(w, tr, d) || d in s.known;
  }

  lemma PruningHasFiles(w: World, s: State, tr: Transfer)
    requires FilesReady(w, s, tr) && tr.phase.Splitting? && tr.phase.next == |tr.digests|
    ensures AdvancedHasFiles(w, s, tr)
  {
    var next := tr.(phase := Advanced(w, s, tr).1);
    assert tr.digests[..tr.phase.next] == tr.digests;
    assert forall d :: d in tr.phase.owned ==> Relies(w, tr, d);
    PruneThenStitchSucceeds(w.json, w.truth, s.files, tr.tar, tr.digests, tr.phase.missing, tr.phase.owned);
    assert forall d :: Relies(w, next, d) ==> Relies(w, tr, d);
  }

  lemma SplittingHasFiles(w: World, s: State, tr: Transfer)
    requires FilesReady(w, s, tr) && tr.phase.Splitting?
    ensures AdvancedHasFiles(w, s, tr)
  {
    if tr.phase.next < |tr.digests| {
      LookingUpHasFiles(w, s, tr);
    } else {
      PruningHasFiles(w, s, tr);
    }
  }

  lemma StitchingHasFiles(w: World, s: State, tr: Transfer)
    requires FilesReady(w, s, tr) && tr.phase.Downloaded?
    ensures AdvancedHasFiles(w, s, tr)
    ensures Stitched(w.json, tr.phase.payload, s.files, tr.digests, tr.phase.owned).Success?
  {
    assert forall d :: d in tr.phase.owned ==> Relies(w, tr, d);
    StitchedHasLayers(w.json, w.truth, s.files, tr.tar, tr.digests, tr.phase.missing, tr.phase.owned);
  }

  /** Caching starts with an unambiguous map, or not at all. */
  lemma CachingHasShape(w: World, s: State, tr: Transfer)
    requires HasShape(w, tr) && tr.phase.Rebuilt?
    ensures Advanced(w, s, tr).0 == s
    ensures HasShape(w, tr.(phase := Advanced(w, s, tr).1))
    ensures forall d :: !Relies(w, tr.(phase := Advanced(w, s, tr).1), d)
    ensures forall d :: !OpenOn(w, tr.(phase := Advanced(w, s, tr).1), d)
  {
    assert MainItemOf(w.json, tr.phase.image) == MainItemOf(w.json, tr.tar);
    CachingReadsMainLayers(w.json, tr.phase.image, tr.digests);
  }

  lemma RebuiltHasFiles(w: World, s: State, tr: Transfer)
    requires FilesReady(w, s, tr) && tr.phase.Rebuilt?
    ensures AdvancedHasFiles(w, s, tr)
  {
    CachingHasShape(w, s, tr);
  }

  lemma NextPhase(w: World, s: State, tr: Transfer)
    requires tr.phase.Extracting? && tr.phase.next < |tr.phase.image|
    requires Target(w, tr).Some? ==> tr.phase.open
    ensures var n := tr.phase.next;
            Advanced(w, s, tr)
            == (if Target(w, tr).None? then s else WithFile(s, Target(w, tr).value, tr.phase.image[n].data),
                tr.phase.(next := n + 1, open := false))
  {
  }

  lemma PassingHasFiles(w: World, s: State, tr: Transfer)
    requires FilesReady(w, s, tr) && tr.phase.Extracting? && tr.phase.next < |tr.phase.image|
    requires Target(w, tr).Some? ==> tr.phase.open
    ensures AdvancedHasFiles(w, s, tr)
  {
    NextPhase(w, s, tr);
    NextIsProper(w, tr);
    NextHasFiles(w, s.files, Advanced(w, s, tr).0.files, tr);
  }

  lemma NextHasFiles(w: World, files: map<string, Bytes>, files': map<string, Bytes>, tr: Transfer)
    requires tr.phase.Extracting? && tr.phase.next < |tr.phase.image| && files.Keys <= files'.Keys
    requires forall d :: Relies(w, tr, d) ==> CacheDir(d) in files
    requires Target(w, tr).Some? ==> CacheDir(Target(w, tr).value) in files'
    ensures forall d :: Relies(w, tr.(phase := tr.phase.(next := tr.phase.next + 1, open := false)), d) ==>
              CacheDir(d) in files'
  {
    forall d | Relies(w, tr.(phase := tr.phase.(next := tr.phase.next + 1, open := false)), d)
      ensures CacheDir(d) in files'
    {
      if Target(w, tr).None? {
        SkippedReliesOnNoMore(w, tr, d);
      } else {
        CompletedReliesOnTarget(w, tr, d);
      }
    }
  }

  lemma OpeningHasFiles(w: World, s: State, tr: Transfer)
    requires FilesReady(w, s, tr) && tr.phase.Extracting? && !tr.phase.open && Target(w, tr).Some?
    ensures AdvancedHasFiles(w, s, tr)
  {
    OpenIsProper(w, tr);
    assert Advanced(w, s, tr) == (WithFile(s, Target(w, tr).value, []), tr.phase.(open := true));
  }

  /** In a scanned image every layer has a file. */
  lemma ScannedIsRelied(w: World, tr: Transfer, d: string)
    requires HasShape(w, tr) && tr.phase.Extracting? && tr.phase.next == |tr.phase.image| && d in tr.digests
    ensures Relies(w, tr, d)
  {
    var image, layers := tr.phase.image, Layers(w, tr.tar);
    var i :| 0 <= i < |tr.digests| && tr.digests[i] == d;
    var j := ContentsAt(image, layers[i]);
    LastWinsHas(layers, tr.digests, i);
    var k := LastWinsAt(layers, tr.digests, layers[i]);
    assert tr.digests[k] == d;
    assert HasScanned(w, tr, d);
  }

  lemma MarkingHasFiles(w: World, s: State, tr: Transfer)
    requires FilesReady(w, s, tr) && tr.phase.Extracting? && tr.phase.next == |tr.phase.image|
    ensures AdvancedHasFiles(w, s, tr)
  {
    forall d | d in tr.phase.missing ensures IsDigest(d) && CacheDir(d) in s.files {
      ScannedIsRelied(w, tr, d);
    }
  }

  lemma AdvanceHasFiles(w: World, s: State, tr: Transfer)
    requires FilesReady(w, s, tr)
    ensures AdvancedHasFiles(w, s, tr)
  {
    match tr.phase {
      case Splitting(_, _, _) => SplittingHasFiles(w, s, tr);
      case Downloaded(_, _, _) => StitchingHasFiles(w, s, tr);
      case Rebuilt(_, _) => RebuiltHasFiles(w, s, tr);
      case Extracting(_, image, n, open) =>
        if n == |image| {
          MarkingHasFiles(w, s, tr);
        } else if Target(w, tr).Some? && !open {
          OpeningHasFiles(w, s, tr);
        } else {
          PassingHasFiles(w, s, tr);
        }
      case _ =>
    }
  }

  lemma AdvanceKeepsFiles(w: World, s: State, id: nat)
    requires FilesExist(w, s) && id in s.transfers
    ensures FilesExist(w, Do(w, s, Advance(id)))
  {
    AdvanceHasFiles(w, s, s.transfers[id]);
  }

  lemma RequestKeepsFiles(w: World, s: State, id: nat, t: Tar, digests: seq<string>)
    requires FilesExist(w, s) && WellFormed(w.json, w.truth, t, digests)
    ensures FilesExist(w, Do(w, s, Request(id, t, digests)))
  {
    if id !in s.transfers && FirstInvalid(digests).None? {
      var tr := Transfer(t, digests, Splitting(0, [], []));
      assert digests[..0] == [];
      assert HasFiles(w, s.files, tr);
    }
  }

  lemma StoppedHasFiles(w: World, files: map<string, Bytes>, tr: Transfer, phase: Phase)
    requires HasShape(w, tr) && (phase.Completed? || phase.Aborted?)
    ensures HasFiles(w, files, tr.(phase := phase))
  {
  }

  lemma StopKeepsFiles(w: World, s: State, id: nat, phase: Phase)
    requires FilesExist(w, s) && id in s.transfers && (phase.Completed? || phase.Aborted?)
    ensures FilesExist(w, WithPhase(s, id, phase))
  {
    assert HasFiles(w, s.files, s.transfers[id]);
    StoppedHasFiles(w, s.files, s.transfers[id], phase);
    var next := WithPhase(s, id, phase);
    forall other | other in next.transfers ensures HasFiles(w, next.files, next.transfers[other]) {
      assert other != id ==> HasFiles(w, s.files, s.transfers[other]);
    }
  }

  lemma PartKeepsFiles(w: World, s: State, id: nat, bytes: Bytes)
    requires FilesExist(w, s) && IsOpen(w, s, id)
    ensures FilesExist(w, Do(w, s, PartWritten(id, bytes)))
  {
    var next := WithFile(s, Target(w, s.transfers[id]).value, bytes);
    assert Do(w, s, PartWritten(id, bytes)) == next;
    forall other | other in s.transfers ensures HasFiles(w, next.files, s.transfers[other]) {
      assert HasFiles(w, s.files, s.transfers[other]);
    }
  }

  lemma StepKeepsFiles(w: World, s: State, step: Step)
    requires FilesExist(w, s)
    requires step.Request? ==> WellFormed(w.json, w.truth, step.tar, step.digests)
    ensures FilesExist(w, Do(w, s, step))
  {
    match step {
      case Advance(id) => if id in s.transfers { AdvanceKeepsFiles(w, s, id); }
      case Request(id, t, digests) => RequestKeepsFiles(w, s, id, t, digests);
      case PartWritten(id, bytes) => if IsOpen(w, s, id) { PartKeepsFiles(w, s, id, bytes); }
      case GiveUpCaching(id) =>
        if id in s.transfers && (s.transfers[id].phase.Rebuilt? || s.transfers[id].phase.Extracting?) {
          StopKeepsFiles(w, s, id, Completed(s.transfers[id].phase.image));
        }
      case Abort(id) => if id in s.transfers { StopKeepsFiles(w, s, id, Aborted); }
      case ClearCacheMemory => assert Do(w, s, step) == s.(known := {});
      case ClearLedgerOnly =>
    }
  }

  lemma {:induction false} EveryRunHasFiles(w: World, s: State, steps: seq<Step>, n: nat)
    requires Starts(w, s, steps) && n <= |steps|
    ensures FilesExist(w, Run(w, s, steps[..n]))
  {
    if n == 0 {
      assert steps[..0] == [];
    } else {
      EveryRunHasFiles(w, s, steps, n - 1);
      RunNext(w, s, steps, n - 1);
      StepKeepsFiles(w, Run(w, s, steps[..n - 1]), steps[n - 1]);
    }
  }

  //
  // When the images are right.
  //

  ghost predicate AllImagesRight(s: State) {
    forall id :: id in s.transfers ==> ImageIsRight(s.transfers[id])
  }

  /** A transfer is stitched while a file it owns does not hold its layer. */
  ghost predicate StitchesTorn(w: World, s: State, step: Step) {
    step.Advance? && step.id in s.transfers && s.transfers[step.id].phase.Downloaded?
    && exists d :: d in s.transfers[step.id].phase.owned && !HasTruth(w.truth, s.files, d)
  }

  lemma StitchedIsRightIff(w: World, s: State, tr: Transfer)
    requires HasFiles(w, s.files, tr) && tr.phase.Downloaded?
    ensures ImageIsRight(tr.(phase := Advanced(w, s, tr).1))
       <==> forall d :: d in tr.phase.owned ==> HasTruth(w.truth, s.files, d)
  {
    assert forall d :: d in tr.phase.owned ==> Relies(w, tr, d);
    StitchedHasLayers(w.json, w.truth, s.files, tr.tar, tr.digests, tr.phase.missing, tr.phase.owned);
    StitchIsRightIffFilesAreTrue(w.json, w.truth, s.files, tr.tar, tr.digests, tr.phase.missing, tr.phase.owned);
  }

  lemma AdvanceSpoilsImageIff(w: World, s: State, id: nat)
    requires FilesExist(w, s) && AllImagesRight(s) && id in s.transfers
    ensures AllImagesRight(Do(w, s, Advance(id))) <==> !StitchesTorn(w, s, Advance(id))
  {
    var tr := s.transfers[id];
    var moved := tr.(phase := Advanced(w, s, tr).1);
    assert HasFiles(w, s.files, tr) && ImageIsRight(tr);
    if tr.phase.Downloaded? {
      StitchedIsRightIff(w, s, tr);
    } else {
      ImageStaysRight(w, s, tr);
    }
    var next := Do(w, s, Advance(id)).transfers;
    assert next[id] == moved;
    assert forall other :: other in s.transfers && other != id ==> next[other] == s.transfers[other];
  }

  lemma ImageStaysRight(w: World, s: State, tr: Transfer)
    requires !tr.phase.Downloaded? && ImageIsRight(tr)
    ensures ImageIsRight(tr.(phase := Advanced(w, s, tr).1))
  {
  }

  lemma StepSpoilsImageIff(w: World, s: State, step: Step)
    requires FilesExist(w, s) && AllImagesRight(s)
    ensures AllImagesRight(Do(w, s, step)) <==> !StitchesTorn(w, s, step)
  {
    if step.Advance? {
      if step.id in s.transfers { AdvanceSpoilsImageIff(w, s, step.id); }
    } else {
      OtherStepsSpoilNothing(w, s, step);
    }
  }

  lemma OtherStepsSpoilNothing(w: World, s: State, step: Step)
    requires AllImagesRight(s) && !step.Advance?
    ensures AllImagesRight(Do(w, s, step))
  {
    forall id | id in Do(w, s, step).transfers ensures ImageIsRight(Do(w, s, step).transfers[id]) {
      assert id in s.transfers ==> ImageIsRight(s.transfers[id]);
    }
  }

  ghost predicate ImagesRightAt(w: World, s: State, steps: seq<Step>, n: nat)
    requires n <= |steps|
  {
    AllImagesRight(Run(w, s, steps[..n]))
  }

  ghost predicate StitchesTornAt(w: World, s: State, steps: seq<Step>, n: nat)
    requires n < |steps|
  {
    StitchesTorn(w, Run(w, s, steps[..n]), steps[n])
  }

  lemma ImagesRightNext(w: World, s: State, steps: seq<Step>, n: nat)
    requires Starts(w, s, steps) && n < |steps| && ImagesRightAt(w, s, steps, n)
    ensures ImagesRightAt(w, s, steps, n + 1) <==> !StitchesTornAt(w, s, steps, n)
  {
    EveryRunHasFiles(w, s, steps, n);
    RunNext(w, s, steps, n);
    StepSpoilsImageIff(w, Run(w, s, steps[..n]), steps[n]);
  }

  lemma {:induction false} ImagesRightUntil(w: World, s: State, steps: seq<Step>, n: nat)
    requires Starts(w, s, steps) && n <= |steps|
    requires forall m :: 0 <= m < n ==> !StitchesTornAt(w, s, steps, m)
    ensures ImagesRightAt(w, s, steps, n)
  {
    if n == 0 {
      assert steps[..0] == [];
    } else {
      ImagesRightUntil(w, s, steps, n - 1);
      ImagesRightNext(w, s, steps, n - 1);
    }
  }

  /** MAIN: over every run from coherent stores, whatever is rebuilt or delivered loads as the image that
      was sent if and only if no transfer is stitched while a file it owns is torn. */
  lemma ImagesRightIffStitchedFromTruth(w: World, s: State, steps: seq<Step>)
    requires Starts(w, s, steps)
    ensures (forall n :: 0 <= n <= |steps| ==> ImagesRightAt(w, s, steps, n))
       <==> (forall n :: 0 <= n < |steps| ==> !StitchesTornAt(w, s, steps, n))
  {
    if forall n :: 0 <= n <= |steps| ==> ImagesRightAt(w, s, steps, n) {
      forall n | 0 <= n < |steps| ensures !StitchesTornAt(w, s, steps, n) {
        ImagesRightNext(w, s, steps, n);
      }
    }
    if forall n :: 0 <= n < |steps| ==> !StitchesTornAt(w, s, steps, n) {
      forall n | 0 <= n <= |steps| ensures ImagesRightAt(w, s, steps, n) {
        ImagesRightUntil(w, s, steps, n);
      }
    }
  }

  //
  // When the stores heal.
  //

  /** The file holds its layer, or somebody is still writing it. */
  ghost predicate Tended(w: World, s: State, d: string) {
    HasTruth(w.truth, s.files, d) || exists id :: id in s.transfers && OpenOn(w, s.transfers[id], d)
  }

  /** All images are right, and every file that is relied upon is true or being written. */
  ghost predicate Healthy(w: World, s: State) {
    && (forall d :: d in s.known ==> IsDigest(d) && Tended(w, s, d))
    && (forall id :: id in s.transfers ==> Proper(w, s.transfers[id]))
    && (forall id, d :: id in s.transfers && Relies(w, s.transfers[id], d) ==> Tended(w, s, d))
  }

  /** The transfer is the last to write a file that is relied upon, and that file is torn. */
  ghost predicate WouldLeaveTorn(w: World, s: State, id: nat) {
    IsOpen(w, s, id)
    && var d := Target(w, s.transfers[id]).value;
    && !HasTruth(w.truth, s.files, d) && Relied(w, s, id, d)
    && !exists other :: other in s.transfers && other != id && OpenOn(w, s.transfers[other], d)
  }

  /** Such a writer gives up, or a transfer is stitched from a torn file. */
  ghost predicate Harms(w: World, s: State, step: Step) {
    StitchesTorn(w, s, step) || ((step.GiveUpCaching? || step.Abort?) && WouldLeaveTorn(w, s, step.id))
  }

  /** One transfer moves, and no file stops being tended. */
  lemma MovingStaysHealthy(w: World, s: State, next: State, id: nat)
    requires Healthy(w, s) && id in next.transfers && next.transfers == s.transfers[id := next.transfers[id]]
    requires forall d :: d in next.known ==> IsDigest(d) && Tended(w, next, d)
    requires Proper(w, next.transfers[id])
    requires forall d :: Relies(w, next.transfers[id], d) ==> Tended(w, next, d)
    requires forall d :: IsDigest(d) && Tended(w, s, d) ==> Tended(w, next, d)
    ensures Healthy(w, next)
  {
    forall other, d | other in next.transfers && Relies(w, next.transfers[other], d) ensures Tended(w, next, d) {
      if other != id {
        ReliedAreDigests(w, s.transfers[other], d);
      }
    }
  }

  /** What is left of tending when one transfer moves. */
  lemma TendedStays(w: World, s: State, next: State, id: nat, d: string)
    requires id in next.transfers && next.transfers == s.transfers[id := next.transfers[id]]
    requires Tended(w, s, d)
    requires HasTruth(w.truth, s.files, d) ==> Tended(w, next, d)
    requires id in s.transfers && OpenOn(w, s.transfers[id], d) ==> Tended(w, next, d)
    ensures Tended(w, next, d)
  {
    if !HasTruth(w.truth, s.files, d) {
      var other :| other in s.transfers && OpenOn(w, s.transfers[other], d);
      if other != id {
        assert next.transfers[other] == s.transfers[other];
      }
    }
  }

  /** A transfer that writes nothing moves, with the same files. */
  lemma ClosedMoveStaysHealthy(w: World, s: State, next: State, id: nat)
    requires Healthy(w, s) && id in next.transfers && next.transfers == s.transfers[id := next.transfers[id]]
    requires next.files == s.files && (id in s.transfers ==> forall d :: !OpenOn(w, s.transfers[id], d))
    requires forall d :: d in next.known ==> IsDigest(d) && Tended(w, s, d)
    requires Proper(w, next.transfers[id])
    requires forall d :: Relies(w, next.transfers[id], d) ==> Tended(w, s, d)
    ensures Healthy(w, next)
  {
    forall d | Tended(w, s, d) ensures Tended(w, next, d) {
      TendedStays(w, s, next, id, d);
    }
    MovingStaysHealthy(w, s, next, id);
  }

  /** The file of a digest gets other bytes, by a transfer that has it open then. */
  lemma WritingStaysHealthy(w: World, s: State, next: State, id: nat, d: string, bytes: Bytes)
    requires Healthy(w, s) && id in s.transfers && id in next.transfers
    requires next.transfers == s.transfers[id := next.transfers[id]] && next.known == s.known
    requires IsDigest(d) && next.files == s.files[CacheDir(d) := bytes]
    requires OpenOn(w, next.transfers[id], d) || bytes == w.truth(d)
    requires forall x :: OpenOn(w, s.transfers[id], x) ==> x == d
    requires Proper(w, next.transfers[id])
    requires forall x :: Relies(w, next.transfers[id], x) ==> x == d || Relies(w, s.transfers[id], x)
    ensures Healthy(w, next)
  {
    assert Tended(w, next, d);
    forall x | IsDigest(x) && Tended(w, s, x) ensures Tended(w, next, x) {
      if HasTruth(w.truth, s.files, x) {
        OtherFilesStay(w.truth, s.files, d, bytes, x);
      }
      TendedStays(w, s, next, id, x);
    }
    forall x | Relies(w, next.transfers[id], x) ensures Tended(w, next, x) {
      if x != d {
        ReliedAreDigests(w, s.transfers[id], x);
      }
    }
    MovingStaysHealthy(w, s, next, id);
  }

  //
  // Each step.
  //

  lemma SplittingIsProper(w: World, s: State, tr: Transfer)
    requires FilesReady(w, s, tr) && tr.phase.Splitting?
    ensures var next := tr.(phase := Advanced(w, s, tr).1);
            && Advanced(w, s, tr).0 == s && Proper(w, next)
            && (forall d :: Relies(w, next, d) ==> d in s.known || Relies(w, tr, d))
  {
    SplittingHasFiles(w, s, tr);
  }

  lemma SplittingStaysHealthy(w: World, s: State, id: nat)
    requires Healthy(w, s) && FilesExist(w, s) && id in s.transfers && s.transfers[id].phase.Splitting?
    ensures Healthy(w, Do(w, s, Advance(id)))
  {
    var tr := s.transfers[id];
    SplittingIsProper(w, s, tr);
    var next := WithPhase(s, id, Advanced(w, s, tr).1);
    assert Do(w, s, Advance(id)) == next;
    forall d | Relies(w, next.transfers[id], d) ensures Tended(w, s, d) {
      assert d in s.known || Relies(w, tr, d);
    }
    ClosedMoveStaysHealthy(w, s, next, id);
  }

  /** Rebuilding from true files, seen apart from the ledger. */
  lemma RebuildingIsProper(w: World, s: State, tr: Transfer)
    requires Proper(w, tr)
    requires tr.phase.Downloaded? && (forall d :: d in tr.phase.owned ==> HasTruth(w.truth, s.files, d))
    ensures var next := tr.(phase := Advanced(w, s, tr).1);
            next.phase.Rebuilt? && Proper(w, next)
  {
    RebuildingStaysSound(w, s.(known := {}), tr);
  }

  lemma StitchingHealthyIff(w: World, s: State, id: nat)
    requires Healthy(w, s) && FilesExist(w, s) && id in s.transfers && s.transfers[id].phase.Downloaded?
    ensures Healthy(w, Do(w, s, Advance(id))) <==> !StitchesTorn(w, s, Advance(id))
  {
    var tr, next := s.transfers[id], Do(w, s, Advance(id));
    assert HasFiles(w, s.files, tr);
    assert next == s.(transfers := s.transfers[id := tr.(phase := Advanced(w, s, tr).1)]) by {
      StitchingHasFiles(w, s, tr);
    }
    if StitchesTorn(w, s, Advance(id)) {
      StitchedIsRightIff(w, s, tr);
      assert !Proper(w, next.transfers[id]);
    } else {
      RebuildingIsProper(w, s, tr);
      ClosedMoveStaysHealthy(w, s, next, id);
    }
  }

  lemma RebuiltStaysHealthy(w: World, s: State, id: nat)
    requires Healthy(w, s) && id in s.transfers && s.transfers[id].phase.Rebuilt?
    ensures Healthy(w, Do(w, s, Advance(id)))
  {
    var tr := s.transfers[id];
    assert Proper(w, tr);
    CachingHasShape(w, s, tr);
    CachingIsProper(w, s, tr);
    var next := WithPhase(s, id, Advanced(w, s, tr).1);
    assert Do(w, s, Advance(id)) == next;
    ClosedMoveStaysHealthy(w, s, next, id);
  }

  lemma CachingIsProper(w: World, s: State, tr: Transfer)
    requires Proper(w, tr) && tr.phase.Rebuilt? && HasShape(w, tr.(phase := Advanced(w, s, tr).1))
    ensures Proper(w, tr.(phase := Advanced(w, s, tr).1))
  {
  }

  lemma SkippingStaysHealthy(w: World, s: State, id: nat)
    requires Healthy(w, s) && id in s.transfers && s.transfers[id].phase.Extracting?
    requires s.transfers[id].phase.next < |s.transfers[id].phase.image| && Target(w, s.transfers[id]).None?
    ensures Healthy(w, Do(w, s, Advance(id)))
  {
    var tr := s.transfers[id];
    assert Proper(w, tr);
    NextPhase(w, s, tr);
    NextIsProper(w, tr);
    var next := WithPhase(s, id, tr.phase.(next := tr.phase.next + 1, open := false));
    assert Do(w, s, Advance(id)) == next;
    forall d | Relies(w, next.transfers[id], d) ensures Tended(w, s, d) {
      SkippedReliesOnNoMore(w, tr, d);
    }
    ClosedMoveStaysHealthy(w, s, next, id);
  }

  lemma OpeningStaysHealthy(w: World, s: State, step: Step)
    requires Healthy(w, s) && Opens(w, s, step)
    ensures Healthy(w, Do(w, s, step))
  {
    var tr := s.transfers[step.id];
    OpensOnce(w, s, step);
    OpenIsProper(w, tr);
    TargetIsDigest(w, tr);
    WritingStaysHealthy(w, s, Do(w, s, step), step.id, Target(w, tr).value, []);
  }

  lemma PartStaysHealthy(w: World, s: State, id: nat, bytes: Bytes)
    requires Healthy(w, s) && IsOpen(w, s, id)
    ensures Healthy(w, Do(w, s, PartWritten(id, bytes)))
  {
    var d := Target(w, s.transfers[id]).value;
    assert Proper(w, s.transfers[id]);
    TargetIsDigest(w, s.transfers[id]);
    PartDoes(w, s, id, bytes);
    WritingStaysHealthy(w, s, WithFile(s, d, bytes), id, d, bytes);
  }

  lemma PartDoes(w: World, s: State, id: nat, bytes: Bytes)
    requires IsOpen(w, s, id)
    ensures Do(w, s, PartWritten(id, bytes)) == WithFile(s, Target(w, s.transfers[id]).value, bytes)
  {
  }

  lemma CompletingStaysHealthy(w: World, s: State, id: nat)
    requires Healthy(w, s) && IsOpen(w, s, id)
    ensures Healthy(w, Do(w, s, Advance(id)))
  {
    var tr := s.transfers[id];
    var d, data := Target(w, tr).value, tr.phase.image[tr.phase.next].data;
    TargetIsDigest(w, tr);
    TargetIsTrue(w, tr);
    NextIsProper(w, tr);
    var next := WithPhase(WithFile(s, d, data), id, tr.phase.(next := tr.phase.next + 1, open := false));
    assert Do(w, s, Advance(id)) == next;
    forall x | Relies(w, next.transfers[id], x) ensures x == d || Relies(w, tr, x) {
      CompletedReliesOnTarget(w, tr, x);
    }
    WritingStaysHealthy(w, s, next, id, d, data);
  }

  lemma TargetIsTrue(w: World, tr: Transfer)
    requires Proper(w, tr) && Target(w, tr).Some?
    ensures tr.phase.image[tr.phase.next].data == w.truth(Target(w, tr).value)
  {
    var image, n := tr.phase.image, tr.phase.next;
    var k := LastWinsAt(Layers(w, tr.tar), tr.digests, image[n].name);
    assert image[n] in image;
  }

  lemma MarkingStaysHealthy(w: World, s: State, id: nat)
    requires Healthy(w, s) && id in s.transfers && s.transfers[id].phase.Extracting?
    requires s.transfers[id].phase.next == |s.transfers[id].phase.image|
    ensures Healthy(w, Do(w, s, Advance(id)))
  {
    var tr := s.transfers[id];
    assert Proper(w, tr);
    var next := WithPhase(s.(known := s.known + set d | d in tr.phase.missing), id, Completed(tr.phase.image));
    assert Do(w, s, Advance(id)) == next;
    CompletedIsProper(w, tr);
    forall d | d in tr.phase.missing ensures IsDigest(d) && Tended(w, s, d) {
      MissingIsRelied(w, tr, d);
    }
    ClosedMoveStaysHealthy(w, s, next, id);
  }

  lemma MissingIsRelied(w: World, tr: Transfer, d: string)
    requires HasShape(w, tr) && tr.phase.Extracting? && tr.phase.next == |tr.phase.image| && d in tr.phase.missing
    ensures Relies(w, tr, d) && IsDigest(d)
  {
    ScannedIsRelied(w, tr, d);
  }

  lemma ExtractingStaysHealthy(w: World, s: State, id: nat)
    requires Healthy(w, s) && id in s.transfers && s.transfers[id].phase.Extracting?
    ensures Healthy(w, Do(w, s, Advance(id)))
  {
    var tr := s.transfers[id];
    assert Proper(w, tr);
    if tr.phase.next == |tr.phase.image| {
      MarkingStaysHealthy(w, s, id);
    } else if Target(w, tr).None? {
      SkippingStaysHealthy(w, s, id);
    } else if tr.phase.open {
      CompletingStaysHealthy(w, s, id);
    } else {
      OpeningStaysHealthy(w, s, Advance(id));
    }
  }

  lemma IdleDoesNothing(w: World, s: State, id: nat)
    requires id in s.transfers
    requires s.transfers[id].phase.Completed? || s.transfers[id].phase.Broken? || s.transfers[id].phase.Aborted?
    ensures Do(w, s, Advance(id)) == s
  {
    assert s.transfers[id := s.transfers[id]] == s.transfers;
  }

  lemma AdvanceHealthyIff(w: World, s: State, id: nat)
    requires Healthy(w, s) && FilesExist(w, s) && id in s.transfers
    ensures Healthy(w, Do(w, s, Advance(id))) <==> !StitchesTorn(w, s, Advance(id))
  {
    match s.transfers[id].phase {
      case Splitting(_, _, _) => SplittingStaysHealthy(w, s, id);
      case Downloaded(_, _, _) => StitchingHealthyIff(w, s, id);
      case Rebuilt(_, _) => RebuiltStaysHealthy(w, s, id);
      case Extracting(_, _, _, _) => ExtractingStaysHealthy(w, s, id);
      case _ => IdleDoesNothing(w, s, id);
    }
  }

  lemma RequestStaysHealthy(w: World, s: State, id: nat, t: Tar, digests: seq<string>)
    requires Healthy(w, s) && WellFormed(w.json, w.truth, t, digests)
    ensures Healthy(w, Do(w, s, Request(id, t, digests)))
  {
    if id !in s.transfers && FirstInvalid(digests).None? {
      var tr := Transfer(t, digests, Splitting(0, [], []));
      assert digests[..0] == [];
      assert Proper(w, tr) && forall d :: !Relies(w, tr, d);
      ClosedMoveStaysHealthy(w, s, Do(w, s, Request(id, t, digests)), id);
    }
  }

  /** A transfer stops; without an open file it takes nothing with it. */
  lemma StoppingStaysHealthy(w: World, s: State, id: nat, phase: Phase)
    requires Healthy(w, s) && id in s.transfers && !IsOpen(w, s, id)
    requires (phase.Aborted? || phase.Completed?) && Proper(w, s.transfers[id].(phase := phase))
    ensures Healthy(w, WithPhase(s, id, phase))
  {
    assert Proper(w, s.transfers[id]);
    ClosedMoveStaysHealthy(w, s, WithPhase(s, id, phase), id);
  }

  /** With one, it depends on the others who write that file. */
  lemma LeavingHealthyIff(w: World, s: State, id: nat, phase: Phase)
    requires Healthy(w, s) && IsOpen(w, s, id)
    requires (phase.Aborted? || phase.Completed?) && Proper(w, s.transfers[id].(phase := phase))
    ensures Healthy(w, WithPhase(s, id, phase)) <==> !WouldLeaveTorn(w, s, id)
  {
    var d := Target(w, s.transfers[id]).value;
    assert Proper(w, s.transfers[id]);
    TendedByOthers(w, s, id, phase, d);
    if WouldLeaveTorn(w, s, id) {
      RelianceStays(w, s, id, phase, d);
    } else {
      OthersStayTended(w, s, id, phase, d);
      LeavingStaysHealthy(w, s, id, phase, d);
    }
  }

  lemma RelianceStays(w: World, s: State, id: nat, phase: Phase, d: string)
    requires id in s.transfers && Relied(w, s, id, d) && !Tended(w, WithPhase(s, id, phase), d)
    ensures !Healthy(w, WithPhase(s, id, phase))
  {
    var next := WithPhase(s, id, phase);
    if d !in s.known {
      var other :| other in s.transfers && other != id && Relies(w, s.transfers[other], d);
      assert next.transfers[other] == s.transfers[other];
    }
  }

  lemma OthersStayTended(w: World, s: State, id: nat, phase: Phase, d: string)
    requires id in s.transfers && (forall x :: OpenOn(w, s.transfers[id], x) ==> x == d)
    ensures forall x :: x != d && Tended(w, s, x) ==> Tended(w, WithPhase(s, id, phase), x)
  {
    forall x | x != d && Tended(w, s, x) ensures Tended(w, WithPhase(s, id, phase), x) {
      TendedStays(w, s, WithPhase(s, id, phase), id, x);
    }
  }

  lemma LeavingStaysHealthy(w: World, s: State, id: nat, phase: Phase, d: string)
    requires Healthy(w, s) && id in s.transfers && (phase.Aborted? || phase.Completed?)
    requires Proper(w, s.transfers[id].(phase := phase))
    requires forall x :: x != d && Tended(w, s, x) ==> Tended(w, WithPhase(s, id, phase), x)
    requires Tended(w, WithPhase(s, id, phase), d) || !Relied(w, s, id, d)
    ensures Healthy(w, WithPhase(s, id, phase))
  {
    var next := WithPhase(s, id, phase);
    forall x | x in s.known ensures IsDigest(x) && Tended(w, next, x) {
    }
    forall other, x | other in next.transfers && Relies(w, next.transfers[other], x) ensures Tended(w, next, x) {
      assert other != id && next.transfers[other] == s.transfers[other];
    }
  }

  lemma TendedByOthers(w: World, s: State, id: nat, phase: Phase, d: string)
    requires id in s.transfers && !phase.Extracting?
    ensures Tended(w, WithPhase(s, id, phase), d)
       <==> HasTruth(w.truth, s.files, d)
            || exists other :: other in s.transfers && other != id && OpenOn(w, s.transfers[other], d)
  {
    var next := WithPhase(s, id, phase);
    if other :| other in s.transfers && other != id && OpenOn(w, s.transfers[other], d) {
      assert next.transfers[other] == s.transfers[other];
    }
    if other :| other in next.transfers && OpenOn(w, next.transfers[other], d) {
      assert other != id && next.transfers[other] == s.transfers[other];
    }
  }

  lemma StopHealthyIff(w: World, s: State, id: nat, phase: Phase)
    requires Healthy(w, s) && id in s.transfers
    requires (phase.Aborted? || phase.Completed?) && Proper(w, s.transfers[id].(phase := phase))
    ensures Healthy(w, WithPhase(s, id, phase)) <==> !WouldLeaveTorn(w, s, id)
  {
    if IsOpen(w, s, id) {
      LeavingHealthyIff(w, s, id, phase);
    } else {
      StoppingStaysHealthy(w, s, id, phase);
    }
  }

  lemma GiveUpHealthyIff(w: World, s: State, id: nat)
    requires Healthy(w, s)
    ensures Healthy(w, Do(w, s, GiveUpCaching(id))) <==> !WouldLeaveTorn(w, s, id)
  {
    if id in s.transfers && (s.transfers[id].phase.Rebuilt? || s.transfers[id].phase.Extracting?) {
      var phase := Completed(s.transfers[id].phase.image);
      CompletedIsProper(w, s.transfers[id]);
      StopHealthyIff(w, s, id, phase);
      assert Do(w, s, GiveUpCaching(id)) == WithPhase(s, id, phase);
    } else {
      assert Do(w, s, GiveUpCaching(id)) == s && !IsOpen(w, s, id);
    }
  }

  lemma AbortedIsProper(w: World, tr: Transfer)
    requires Proper(w, tr)
    ensures Proper(w, tr.(phase := Aborted))
  {
  }

  lemma AbortDoes(w: World, s: State, id: nat)
    ensures Do(w, s, Abort(id)) == if id in s.transfers then WithPhase(s, id, Aborted) else s
  {
  }

  lemma AbortedHealthyIff(w: World, s: State, id: nat)
    requires Healthy(w, s) && id in s.transfers
    ensures Healthy(w, WithPhase(s, id, Aborted)) <==> !WouldLeaveTorn(w, s, id)
  {
    assert Proper(w, s.transfers[id]);
    AbortedIsProper(w, s.transfers[id]);
    StopHealthyIff(w, s, id, Aborted);
  }

  lemma AbortHealthyIff(w: World, s: State, id: nat)
    requires Healthy(w, s)
    ensures Healthy(w, Do(w, s, Abort(id))) <==> !WouldLeaveTorn(w, s, id)
  {
    AbortDoes(w, s, id);
    if id in s.transfers {
      AbortedHealthyIff(w, s, id);
    }
  }

  lemma StepHarmsIff(w: World, s: State, step: Step)
    requires Healthy(w, s) && FilesExist(w, s)
    requires step.Request? ==> WellFormed(w.json, w.truth, step.tar, step.digests)
    ensures Healthy(w, Do(w, s, step)) <==> !Harms(w, s, step)
  {
    match step {
      case Advance(id) => if id in s.transfers { AdvanceHealthyIff(w, s, id); }
      case Request(id, t, digests) => RequestStaysHealthy(w, s, id, t, digests);
      case PartWritten(id, bytes) => if IsOpen(w, s, id) { PartStaysHealthy(w, s, id, bytes); }
      case GiveUpCaching(id) => GiveUpHealthyIff(w, s, id);
      case Abort(id) => AbortHealthyIff(w, s, id);
      case ClearCacheMemory => ClearingStaysHealthy(w, s);
      case ClearLedgerOnly =>
    }
  }

  lemma ClearingStaysHealthy(w: World, s: State)
    requires Healthy(w, s)
    ensures Healthy(w, s.(known := {}))
  {
    assert forall d :: Tended(w, s, d) ==> Tended(w, s.(known := {}), d);
  }

  //
  // Whole runs.
  //

  ghost predicate HealthyAt(w: World, s: State, steps: seq<Step>, n: nat)
    requires n <= |steps|
  {
    Healthy(w, Run(w, s, steps[..n]))
  }

  ghost predicate HarmsAt(w: World, s: State, steps: seq<Step>, n: nat)
    requires n < |steps|
  {
    Harms(w, Run(w, s, steps[..n]), steps[n])
  }

  lemma HealthyAtNext(w: World, s: State, steps: seq<Step>, n: nat)
    requires Starts(w, s, steps) && n < |steps| && HealthyAt(w, s, steps, n)
    ensures HealthyAt(w, s, steps, n + 1) <==> !HarmsAt(w, s, steps, n)
  {
    EveryRunHasFiles(w, s, steps, n);
    RunNext(w, s, steps, n);
    StepHarmsIff(w, Run(w, s, steps[..n]), steps[n]);
  }

  lemma {:induction false} HealthyUntilHarm(w: World, s: State, steps: seq<Step>, n: nat)
    requires Starts(w, s, steps) && n <= |steps|
    requires forall m :: 0 <= m < n ==> !HarmsAt(w, s, steps, m)
    ensures HealthyAt(w, s, steps, n)
  {
    if n == 0 {
      assert steps[..0] == [];
    } else {
      HealthyUntilHarm(w, s, steps, n - 1);
      HealthyAtNext(w, s, steps, n - 1);
    }
  }

  /** MAIN: from any coherent stores, through every interleaving of requests, transfer steps, half-written
      files, failures and garbage collection: every image is right and every file that is relied upon
      is true or being written, at each point, if and only if no step does lasting harm. */
  lemma HealthyIffNoHarm(w: World, s: State, steps: seq<Step>)
    requires Starts(w, s, steps)
    ensures (forall n :: 0 <= n <= |steps| ==> HealthyAt(w, s, steps, n))
       <==> (forall n :: 0 <= n < |steps| ==> !HarmsAt(w, s, steps, n))
  {
    if forall n :: 0 <= n <= |steps| ==> HealthyAt(w, s, steps, n) {
      forall n | 0 <= n < |steps| ensures !HarmsAt(w, s, steps, n) {
        HealthyAtNext(w, s, steps, n);
      }
    }
    if forall n :: 0 <= n < |steps| ==> !HarmsAt(w, s, steps, n) {
      forall n | 0 <= n <= |steps| ensures HealthyAt(w, s, steps, n) {
        HealthyUntilHarm(w, s, steps, n);
      }
    }
  }

  /** With no file being written, healthy is sound. */
  lemma HealthyAndClosedIsSound(w: World, s: State)
    requires Healthy(w, s) && NoneOpen(w, s)
    ensures Inv(w, s)
  {
    forall d | Tended(w, s, d) ensures HasTruth(w.truth, s.files, d) {
      if id :| id in s.transfers && OpenOn(w, s.transfers[id], d) {
        assert IsOpen(w, s, id);
        assert false;
      }
    }
  }

  /** MAIN: whenever no file is being written, a run without harm has left a coherent ledger and cache,
      and every transfer sound. */
  lemma EveryRunIsCoherent(w: World, s: State, steps: seq<Step>)
    requires Starts(w, s, steps)
    requires forall n :: 0 <= n < |steps| ==> !HarmsAt(w, s, steps, n)
    ensures NoneOpen(w, Run(w, s, steps)) ==> Inv(w, Run(w, s, steps))
  {
    assert steps[..|steps|] == steps;
    HealthyUntilHarm(w, s, steps, |steps|);
    if NoneOpen(w, Run(w, s, steps)) {
      HealthyAndClosedIsSound(w, Run(w, s, steps));
    }
  }

  /** If each cached file were replaced in one step, no run would do harm. */
  lemma WholeWritesHarmNothing(w: World, s: State, steps: seq<Step>)
    requires Starts(w, s, steps) && WritesAtOnce(w, s, steps)
    ensures forall n :: 0 <= n < |steps| ==> !HarmsAt(w, s, steps, n)
    ensures Inv(w, Run(w, s, steps)) && NoneOpen(w, Run(w, s, steps))
  {
    forall n | 0 <= n < |steps| ensures !HarmsAt(w, s, steps, n) {
      WholeWritesKeepInv(w, s, steps, n);
      if n > 0 && OpensAt(w, s, steps, n - 1) {
        CompletingHarmsNothing(w, s, steps, n - 1);
      } else {
        SoundHarmsNothing(w, Run(w, s, steps[..n]), steps[n]);
      }
    }
    assert steps[..|steps|] == steps;
    WholeWritesKeepInv(w, s, steps, |steps|);
  }

  lemma CompletingHarmsNothing(w: World, s: State, steps: seq<Step>, n: nat)
    requires n + 1 < |steps| && steps[n + 1] == steps[n] && OpensAt(w, s, steps, n)
    ensures !HarmsAt(w, s, steps, n + 1)
  {
    RunNext(w, s, steps, n);
    OpensOnce(w, Run(w, s, steps[..n]), steps[n]);
  }

  lemma SoundHarmsNothing(w: World, s: State, step: Step)
    requires Inv(w, s) && NoneOpen(w, s)
    ensures !Harms(w, s, step)
  {
    if step.Advance? && step.id in s.transfers && s.transfers[step.id].phase.Downloaded? {
      var tr := s.transfers[step.id];
      assert Sound(w, s.files, tr);
      forall d | d in tr.phase.owned ensures HasTruth(w.truth, s.files, d) {
        assert Relies(w, tr, d);
      }
    }
  }

  /** MAIN: in every run from coherent stores no transfer breaks and stitching never misses a cached
      file; in those that never stitch a torn file, whatever is rebuilt or delivered loads as the image
      that was sent. */
  lemma NoTransferBreaks(w: World, s: State, steps: seq<Step>, id: nat)
    requires Starts(w, s, steps) && id in Run(w, s, steps).transfers
    ensures var now := Run(w, s, steps);
            var tr := now.transfers[id];
            && !tr.phase.Broken?
            && (tr.phase.Downloaded? ==>
                  Stitched(w.json, tr.phase.payload, now.files, tr.digests, tr.phase.owned).Success?)
            && ((forall n :: 0 <= n < |steps| ==> !StitchesTornAt(w, s, steps, n)) ==> ImageIsRight(tr))
  {
    var now := Run(w, s, steps);
    assert steps[..|steps|] == steps;
    EveryRunHasFiles(w, s, steps, |steps|);
    assert HasFiles(w, now.files, now.transfers[id]);
    if now.transfers[id].phase.Downloaded? {
      StitchingHasFiles(w, now, now.transfers[id]);
    }
    if forall n :: 0 <= n < |steps| ==> !StitchesTornAt(w, s, steps, n) {
      ImagesRightUntil(w, s, steps, |steps|);
    }
  }
}
