/** Any number of interleaved receives, cache writes that stop halfway, and cache resets: when the
    ledger claims only layers the disk holds, and what a transfer relies on stays true. */
module Coherence {
  import opened Wrappers
  import opened Tarball
  import opened Digests
  import opened Prune
  import opened Stitch
  import opened Cache
  import opened Delta
  import opened Receiver

  /** What does not change during a run: the JSON decoders and the true content of digests. */
  datatype World = World(json: Json, truth: string -> Bytes)

  /** While extracting, `next` is the entry at hand and `open` says whether its file is being written. */
  datatype Phase =
    | Splitting(next: nat, missing: seq<string>, owned: seq<string>)
    | Downloaded(missing: seq<string>, owned: seq<string>, payload: Tar)
    | Rebuilt(missing: seq<string>, image: Tar)
    | Extracting(missing: seq<string>, image: Tar, next: nat, open: bool)
    | Completed(image: Tar)
    | Broken(error: Error)
    | Aborted

  datatype Transfer = Transfer(tar: Tar, digests: seq<string>, phase: Phase)

  datatype State = State(known: set<string>, files: map<string, Bytes>, transfers: map<nat, Transfer>)

  /** Request offers an image, and Advance runs the next micro-step of one transfer. PartWritten is
      what an open file holds before it is complete, GiveUpCaching a failed cache write or ledger
      update, Abort any other failure. The rest is garbage collection. */
  datatype Step =
    | Request(id: nat, tar: Tar, digests: seq<string>)
    | Advance(id: nat)
    | PartWritten(id: nat, bytes: Bytes)
    | GiveUpCaching(id: nat)
    | Abort(id: nat)
    | ClearCacheMemory
    | ClearLedgerOnly

  /** The digest whose file the entry at hand is cached in, if it is a layer. */
  function Target(w: World, tr: Transfer): Option<string> {
    match tr.phase
    case Extracting(_, image, n, _) =>
      var layerMap := LayerDigests(w.json, image, tr.digests);
      if n < |image| && layerMap.Success? && image[n].name in layerMap.value
      then Some(layerMap.value[image[n].name]) else None
    case _ => None
  }

  function WithFile(s: State, digest: string, data: Bytes): State {
    s.(files := s.files[CacheDir(digest) := data])
  }

  /** One ledger lookup, the sender's pruning, the stitching, creating a cached file, completing it,
      or the marking: whichever comes next for this transfer. */
  function Advanced(w: World, s: State, tr: Transfer): (State, Phase) {
    match tr.phase
    case Splitting(n, missing, owned) =>
      if n < |tr.digests| then
        var d := tr.digests[n];
        (s, if d in s.known then Splitting(n + 1, missing, owned + [d]) else Splitting(n + 1, missing + [d], owned))
      else
        (match Pruned(w.json, tr.tar, tr.digests, missing)
         case Success(payload) => (s, Downloaded(missing, owned, payload))
         case Failure(e) => (s, Broken(e)))
    case Downloaded(missing, owned, payload) =>
      (match Stitched(w.json, payload, s.files, tr.digests, owned)
       case Success(image) => (s, Rebuilt(missing, image))
       case Failure(e) => (s, Broken(e)))
    case Rebuilt(missing, image) =>
      if missing == [] || LayerDigests(w.json, image, tr.digests).Failure? then (s, Completed(image))
      else (s, Extracting(missing, image, 0, false))
    case Extracting(missing, image, n, open) =>
      if n >= |image| then (s.(known := s.known + set d | d in missing), Completed(image))
      else
        (match Target(w, tr)
         case None => (s, Extracting(missing, image, n + 1, false))
         case Some(d) =>
           if open then (WithFile(s, d, image[n].data), Extracting(missing, image, n + 1, false))
           else (WithFile(s, d, []), Extracting(missing, image, n, true)))
    case _ => (s, tr.phase)
  }

  function WithPhase(s: State, id: nat, phase: Phase): State
    requires id in s.transfers
  {
    s.(transfers := s.transfers[id := s.transfers[id].(phase := phase)])
  }

  predicate IsOpen(w: World, s: State, id: nat) {
    id in s.transfers && s.transfers[id].phase.Extracting? && s.transfers[id].phase.open
    && Target(w, s.transfers[id]).Some?
  }

  /** A step that does not apply changes nothing. A request with an invalid digest is dropped. */
  function Do(w: World, s: State, step: Step): State {
    match step
    case Request(id, t, digests) =>
      if id in s.transfers || FirstInvalid(digests).Some? then s
      else s.(transfers := s.transfers[id := Transfer(t, digests, Splitting(0, [], []))])
    case Advance(id) =>
      if id !in s.transfers then s
      else
        var (s', phase) := Advanced(w, s, s.transfers[id]);
        s'.(transfers := s.transfers[id := s.transfers[id].(phase := phase)])
    case PartWritten(id, bytes) =>
      if IsOpen(w, s, id) then WithFile(s, Target(w, s.transfers[id]).value, bytes) else s
    case GiveUpCaching(id) =>
      if id in s.transfers && (s.transfers[id].phase.Rebuilt? || s.transfers[id].phase.Extracting?)
      then WithPhase(s, id, Completed(s.transfers[id].phase.image)) else s
    case Abort(id) =>
      if id in s.transfers then WithPhase(s, id, Aborted) else s
    case ClearCacheMemory => s.(known := {})
    case ClearLedgerOnly => s
  }

  function Run(w: World, s: State, steps: seq<Step>): State {
    if steps == [] then s else Do(w, Run(w, s, steps[..|steps| - 1]), steps[|steps| - 1])
  }

  //
  // What a transfer relies on.
  //

  ghost predicate IsCover(digests: seq<string>, missing: seq<string>, owned: seq<string>) {
    && (forall d :: d in digests ==> d in missing || d in owned)
    && (forall d :: d in owned ==> d in digests)
  }

  ghost function Layers(w: World, t: Tar): seq<string>
    requires MainItemOf(w.json, t).Success?
  {
    MainItemOf(w.json, t).value.layers
  }

  /** A rebuilt image has the manifest of the original and something under every layer path. */
  ghost predicate IsLayered(w: World, tr: Transfer, missing: seq<string>, image: Tar)
    requires WellFormed(w.json, w.truth, tr.tar, tr.digests)
  {
    && (forall d :: d in missing ==> d in tr.digests)
    && ManifestOf(w.json, image) == ManifestOf(w.json, tr.tar)
    && forall i :: 0 <= i < |tr.digests| ==> Layers(w, tr.tar)[i] in Contents(image)
  }

  /** What each phase of a transfer has made sure of, whatever the cached files hold. */
  ghost predicate HasShape(w: World, tr: Transfer) {
    && WellFormed(w.json, w.truth, tr.tar, tr.digests)
    && (forall d :: d in tr.digests ==> IsDigest(d))
    && match tr.phase
       case Splitting(n, missing, owned) =>
         n <= |tr.digests| && IsCover(tr.digests[..n], missing, owned) && (forall d :: d in missing ==> d in tr.digests)
       case Downloaded(missing, owned, payload) =>
         && IsCover(tr.digests, missing, owned) && (forall d :: d in missing ==> d in tr.digests)
         && Pruned(w.json, tr.tar, tr.digests, missing) == Success(payload)
       case Rebuilt(missing, image) => IsLayered(w, tr, missing, image)
       case Extracting(missing, image, n, open) =>
         && IsLayered(w, tr, missing, image) && n <= |image|
         && LayerDigests(w.json, image, tr.digests) == Success(LastWins(Layers(w, tr.tar), tr.digests))
         && (open ==> Target(w, tr).Some?)
       case Completed(_) => true
       case Broken(_) => false
       case Aborted => true
  }

  /** The image a transfer has rebuilt or delivered loads as the one that was sent. */
  predicate ImageIsRight(tr: Transfer) {
    match tr.phase
    case Rebuilt(_, image) => Contents(image) == Contents(tr.tar)
    case Extracting(_, image, _, _) => Contents(image) == Contents(tr.tar)
    case Completed(image) => Contents(image) == Contents(tr.tar)
    case _ => true
  }

  ghost predicate Proper(w: World, tr: Transfer) {
    && HasShape(w, tr) && ImageIsRight(tr)
    && (tr.phase.Rebuilt? || tr.phase.Extracting? ==> LayersAre(w.truth, tr.phase.image, Layers(w, tr.tar), tr.digests))
  }

  /** The file of this digest was completed by the transfer and is not being written again. */
  ghost predicate HasScanned(w: World, tr: Transfer, d: string)
    requires tr.phase.Extracting?
  {
    var image, layerMap := tr.phase.image, LayerDigests(w.json, tr.phase.image, tr.digests);
    && layerMap.Success?
    && !(tr.phase.open && Target(w, tr) == Some(d))
    && exists j :: 0 <= j < |image| && j < tr.phase.next && image[j].name in layerMap.value
                   && layerMap.value[image[j].name] == d
  }

  /** The digests whose files a transfer will still read, or is about to mark. */
  ghost predicate Relies(w: World, tr: Transfer, d: string) {
    match tr.phase
    case Splitting(_, _, owned) => d in owned
    case Downloaded(_, owned, _) => d in owned
    case Extracting(_, _, _, _) => HasScanned(w, tr, d)
    case _ => false
  }

  ghost predicate Sound(w: World, files: map<string, Bytes>, tr: Transfer) {
    Proper(w, tr) && forall d :: Relies(w, tr, d) ==> HasTruth(w.truth, files, d)
  }

  ghost predicate Inv(w: World, s: State) {
    && Coherent(w.truth, s.known, s.files)
    && forall id :: id in s.transfers ==> Sound(w, s.files, s.transfers[id])
  }

  lemma ReliedAreDigests(w: World, tr: Transfer, d: string)
    requires HasShape(w, tr) && Relies(w, tr, d)
    ensures d in tr.digests && IsDigest(d)
  {
    if tr.phase.Extracting? {
      var image, layers := tr.phase.image, Layers(w, tr.tar);
      var j :| 0 <= j < |image| && image[j].name in LastWins(layers, tr.digests)
               && LastWins(layers, tr.digests)[image[j].name] == d;
      var k := LastWinsAt(layers, tr.digests, image[j].name);
    }
  }

  /** As long as no true file is lost, nobody loses what he relied on; other files may hold anything. */
  lemma SoundUnlessLost(w: World, files: map<string, Bytes>, files': map<string, Bytes>, tr: Transfer)
    requires Sound(w, files, tr) && NoneLost(w.truth, files, files')
    ensures Sound(w, files', tr)
  {
    forall d | Relies(w, tr, d) ensures HasTruth(w.truth, files', d) {
      ReliedAreDigests(w, tr, d);
    }
  }

  //
  // Steps that tear no file.
  //

  /** The stores and the advanced transfer after one step. */
  ghost predicate AdvancedWell(w: World, s: State, tr: Transfer) {
    var (s', phase) := Advanced(w, s, tr);
    && Coherent(w.truth, s'.known, s'.files) && NoneLost(w.truth, s.files, s'.files)
    && s'.transfers == s.transfers && Sound(w, s'.files, tr.(phase := phase))
  }

  ghost predicate Ready(w: World, s: State, tr: Transfer) {
    Coherent(w.truth, s.known, s.files) && Sound(w, s.files, tr)
  }

  lemma SplittingStaysSound(w: World, s: State, tr: Transfer)
    requires Ready(w, s, tr) && tr.phase.Splitting?
    ensures AdvancedWell(w, s, tr)
  {
    if tr.phase.next < |tr.digests| {
      LookingUpStaysSound(w, s, tr);
    } else {
      PruningStaysSound(w, s, tr);
    }
  }

  lemma LookingUpStaysSound(w: World, s: State, tr: Transfer)
    requires Ready(w, s, tr) && tr.phase.Splitting? && tr.phase.next < |tr.digests|
    ensures AdvancedWell(w, s, tr)
  {
    var n := tr.phase.next;
    assert tr.digests[..n + 1] == tr.digests[..n] + [tr.digests[n]];
    forall d | Relies(w, tr.(phase := Advanced(w, s, tr).1), d) ensures HasTruth(w.truth, s.files, d) {
      assert d in s.known || Relies(w, tr, d);
    }
  }

  lemma PruningStaysSound(w: World, s: State, tr: Transfer)
    requires Ready(w, s, tr) && tr.phase.Splitting? && tr.phase.next == |tr.digests|
    ensures AdvancedWell(w, s, tr)
  {
    assert tr.digests[..tr.phase.next] == tr.digests;
    assert forall d :: Relies(w, tr.(phase := Advanced(w, s, tr).1), d) ==> Relies(w, tr, d);
  }

  lemma RebuildingStaysSound(w: World, s: State, tr: Transfer)
    requires Ready(w, s, tr) && tr.phase.Downloaded?
    ensures AdvancedWell(w, s, tr)
    ensures Stitched(w.json, tr.phase.payload, s.files, tr.digests, tr.phase.owned).Success?
  {
    var missing, owned := tr.phase.missing, tr.phase.owned;
    assert forall d :: d in owned ==> Relies(w, tr, d);
    assert IsSplit(w.truth, s.files, tr.digests, missing, owned);
    RoundTrip(w.json, w.truth, s.files, tr.tar, tr.digests, missing, owned);
    OnePathRemembersAll(Layers(w, tr.tar), tr.digests, missing, owned);
    PruneThenStitchSucceeds(w.json, w.truth, s.files, tr.tar, tr.digests, missing, owned);
    RebuiltLayersAre(w.json, w.truth, s.files, tr.tar, tr.digests, missing, owned);
  }

  lemma RebuiltStaysSound(w: World, s: State, tr: Transfer)
    requires Ready(w, s, tr) && tr.phase.Rebuilt?
    ensures AdvancedWell(w, s, tr)
  {
    assert MainItemOf(w.json, tr.phase.image) == MainItemOf(w.json, tr.tar);
    CachingReadsMainLayers(w.json, tr.phase.image, tr.digests);
  }

  /** An entry that is no layer is passed over. */
  lemma SkippingStaysSound(w: World, s: State, tr: Transfer)
    requires Ready(w, s, tr) && tr.phase.Extracting? && tr.phase.next < |tr.phase.image| && Target(w, tr).None?
    ensures AdvancedWell(w, s, tr)
  {
    SkippedIsSound(w, s.files, tr);
    assert Advanced(w, s, tr) == (s, tr.phase.(next := tr.phase.next + 1, open := false));
  }

  lemma SkippedIsSound(w: World, files: map<string, Bytes>, tr: Transfer)
    requires Sound(w, files, tr) && tr.phase.Extracting? && tr.phase.next < |tr.phase.image| && Target(w, tr).None?
    ensures Sound(w, files, tr.(phase := tr.phase.(next := tr.phase.next + 1, open := false)))
  {
    var next := tr.(phase := tr.phase.(next := tr.phase.next + 1, open := false));
    NextIsProper(w, tr);
    forall d | Relies(w, next, d) ensures HasTruth(w.truth, files, d) {
      SkippedReliesOnNoMore(w, tr, d);
    }
  }

  lemma NextIsProper(w: World, tr: Transfer)
    requires HasShape(w, tr) && tr.phase.Extracting? && tr.phase.next < |tr.phase.image|
    ensures HasShape(w, tr.(phase := tr.phase.(next := tr.phase.next + 1, open := false)))
    ensures Proper(w, tr) ==> Proper(w, tr.(phase := tr.phase.(next := tr.phase.next + 1, open := false)))
  {
  }

  lemma SkippedReliesOnNoMore(w: World, tr: Transfer, d: string)
    requires tr.phase.Extracting? && tr.phase.next < |tr.phase.image| && Target(w, tr).None?
    requires Relies(w, tr.(phase := tr.phase.(next := tr.phase.next + 1, open := false)), d)
    ensures Relies(w, tr, d)
  {
  }

  /** Completing the file at hand makes it true, and takes nothing from anyone. */
  lemma CompletingStaysSound(w: World, s: State, tr: Transfer)
    requires Ready(w, s, tr) && tr.phase.Extracting? && tr.phase.open
    ensures AdvancedWell(w, s, tr)
  {
    var image, n, layers := tr.phase.image, tr.phase.next, Layers(w, tr.tar);
    LayersAreOfOne(w.truth, image, n, layers, tr.digests);
    EntryWritesTruth(w.truth, s.files, image[n], layers, tr.digests);
    var files' := WithEntry(s.files, image[n], LastWins(layers, tr.digests));
    TruthStays(w.truth, s.known, s.files, files');
    NextIsSound(w, s.files, files', tr);
    assert Advanced(w, s, tr) == (s.(files := files'), tr.phase.(next := n + 1, open := false));
  }

  lemma NextIsSound(w: World, files: map<string, Bytes>, files': map<string, Bytes>, tr: Transfer)
    requires Sound(w, files, tr) && tr.phase.Extracting? && tr.phase.open && NoneLost(w.truth, files, files')
    requires Target(w, tr).Some? && HasTruth(w.truth, files', Target(w, tr).value)
    ensures Sound(w, files', tr.(phase := tr.phase.(next := tr.phase.next + 1, open := false)))
  {
    var next := tr.(phase := tr.phase.(next := tr.phase.next + 1, open := false));
    NextIsProper(w, tr);
    forall d | Relies(w, next, d) ensures HasTruth(w.truth, files', d) {
      CompletedReliesOnTarget(w, tr, d);
      if Some(d) != Target(w, tr) {
        ReliedAreDigests(w, tr, d);
      }
    }
  }

  lemma CompletedReliesOnTarget(w: World, tr: Transfer, d: string)
    requires tr.phase.Extracting? && tr.phase.next < |tr.phase.image| && Target(w, tr).Some?
    requires Relies(w, tr.(phase := tr.phase.(next := tr.phase.next + 1, open := false)), d)
    ensures Some(d) == Target(w, tr) || Relies(w, tr, d)
  {
  }

  lemma LayersAreOfOne(truth: string -> Bytes, t: Tar, n: nat, layers: seq<string>, digests: seq<string>)
    requires n < |t| && |layers| == |digests| && LayersAre(truth, t, layers, digests)
    ensures LayersAre(truth, [t[n]], layers, digests)
  {
    assert t[n] in t;
  }

  lemma TruthStays(truth: string -> Bytes, known: set<string>, files: map<string, Bytes>, files': map<string, Bytes>)
    requires Coherent(truth, known, files) && NoneLost(truth, files, files')
    ensures Coherent(truth, known, files')
  {
  }

  /** When every entry is scanned, the digests about to be marked have true files. */
  lemma MarkingStaysCoherent(w: World, s: State, tr: Transfer)
    requires Ready(w, s, tr) && tr.phase.Extracting? && tr.phase.next == |tr.phase.image|
    ensures AdvancedWell(w, s, tr)
  {
    var image, layers := tr.phase.image, Layers(w, tr.tar);
    forall d | d in tr.phase.missing ensures IsDigest(d) && HasTruth(w.truth, s.files, d) {
      var i :| 0 <= i < |tr.digests| && tr.digests[i] == d;
      var j := ContentsAt(image, layers[i]);
      LastWinsHas(layers, tr.digests, i);
      var k := LastWinsAt(layers, tr.digests, layers[i]);
      assert tr.digests[k] == d;
      assert HasScanned(w, tr, d);
      assert Relies(w, tr, d);
    }
  }

  /** The next step of this transfer creates the file of a layer, and so truncates it. */
  predicate Opens(w: World, s: State, step: Step) {
    step.Advance? && step.id in s.transfers && s.transfers[step.id].phase.Extracting?
    && !s.transfers[step.id].phase.open && Target(w, s.transfers[step.id]).Some?
  }

  lemma AdvanceIsWell(w: World, s: State, tr: Transfer)
    requires Ready(w, s, tr)
    requires tr.phase.Extracting? && Target(w, tr).Some? ==> tr.phase.open
    ensures AdvancedWell(w, s, tr)
  {
    match tr.phase {
      case Splitting(_, _, _) => SplittingStaysSound(w, s, tr);
      case Downloaded(_, _, _) => RebuildingStaysSound(w, s, tr);
      case Rebuilt(_, image) => RebuiltStaysSound(w, s, tr);
      case Extracting(_, image, n, open) =>
        if n == |image| {
          MarkingStaysCoherent(w, s, tr);
        } else if open {
          CompletingStaysSound(w, s, tr);
        } else {
          SkippingStaysSound(w, s, tr);
        }
      case _ =>
    }
  }

  lemma AdvanceKeepsInv(w: World, s: State, id: nat)
    requires Inv(w, s) && id in s.transfers && !Opens(w, s, Advance(id))
    ensures Inv(w, Do(w, s, Advance(id)))
  {
    AdvanceIsWell(w, s, s.transfers[id]);
    var files' := Advanced(w, s, s.transfers[id]).0.files;
    forall other | other in s.transfers && other != id ensures Sound(w, files', s.transfers[other]) {
      SoundUnlessLost(w, s.files, files', s.transfers[other]);
    }
  }

  lemma RequestKeepsInv(w: World, s: State, id: nat, t: Tar, digests: seq<string>)
    requires Inv(w, s) && WellFormed(w.json, w.truth, t, digests)
    ensures Inv(w, Do(w, s, Request(id, t, digests)))
  {
    if id !in s.transfers && FirstInvalid(digests).None? {
      var tr := Transfer(t, digests, Splitting(0, [], []));
      assert digests[..0] == [];
      assert Sound(w, s.files, tr);
    }
  }

  lemma StopKeepsInv(w: World, s: State, id: nat, phase: Phase)
    requires Inv(w, s) && id in s.transfers
    requires Sound(w, s.files, s.transfers[id].(phase := phase))
    ensures Inv(w, WithPhase(s, id, phase))
  {
  }

  lemma CompletedIsProper(w: World, tr: Transfer)
    requires Proper(w, tr) && (tr.phase.Rebuilt? || tr.phase.Extracting?)
    ensures Proper(w, tr.(phase := Completed(tr.phase.image)))
  {
  }

  lemma CompletedIsSound(w: World, files: map<string, Bytes>, tr: Transfer)
    requires Sound(w, files, tr) && (tr.phase.Rebuilt? || tr.phase.Extracting?)
    ensures Sound(w, files, tr.(phase := Completed(tr.phase.image)))
  {
    CompletedIsProper(w, tr);
  }

  lemma GiveUpKeepsInv(w: World, s: State, id: nat)
    requires Inv(w, s)
    ensures Inv(w, Do(w, s, GiveUpCaching(id)))
  {
    if id in s.transfers && (s.transfers[id].phase.Rebuilt? || s.transfers[id].phase.Extracting?) {
      CompletedIsSound(w, s.files, s.transfers[id]);
      StopKeepsInv(w, s, id, Completed(s.transfers[id].phase.image));
    }
  }

  lemma AbortKeepsInv(w: World, s: State, id: nat)
    requires Inv(w, s)
    ensures Inv(w, Do(w, s, Abort(id)))
  {
    if id in s.transfers {
      assert Sound(w, s.files, s.transfers[id]);
      StopKeepsInv(w, s, id, Aborted);
    }
  }

  //
  // Steps that put other bytes in a file.
  //

  /** A transfer leaves these bytes in the file of this digest. */
  datatype Tear = Tear(id: nat, digest: string, bytes: Bytes)

  function TearOf(w: World, s: State, step: Step): Option<Tear> {
    if Opens(w, s, step) then Some(Tear(step.id, Target(w, s.transfers[step.id]).value, []))
    else if step.PartWritten? && IsOpen(w, s, step.id)
    then Some(Tear(step.id, Target(w, s.transfers[step.id]).value, step.bytes))
    else None
  }

  /** The ledger claims the layer, a transfer that owns it has still to stitch it, or another one has
      cached it and not yet marked it. */
  ghost predicate Relied(w: World, s: State, id: nat, d: string) {
    d in s.known || exists other :: other in s.transfers && other != id && Relies(w, s.transfers[other], d)
  }

  /** The step leaves a file that is relied upon without the content of its layer. */
  ghost predicate Tears(w: World, s: State, step: Step) {
    var tear := TearOf(w, s, step);
    tear.Some? && tear.value.bytes != w.truth(tear.value.digest) && Relied(w, s, tear.value.id, tear.value.digest)
  }

  /** From s to next, these bytes are put in the file of this digest, by a transfer that does not
      rely on that file itself. */
  ghost predicate IsTear(w: World, s: State, next: State, tear: Tear) {
    && IsDigest(tear.digest) && tear.id in s.transfers && tear.id in next.transfers
    && next.known == s.known && next.files == s.files[CacheDir(tear.digest) := tear.bytes]
    && next.transfers == s.transfers[tear.id := next.transfers[tear.id]]
    && Proper(w, next.transfers[tear.id])
    && (forall d :: Relies(w, next.transfers[tear.id], d) ==>
          d != tear.digest && Relies(w, s.transfers[tear.id], d))
  }

  lemma TargetIsDigest(w: World, tr: Transfer)
    requires HasShape(w, tr) && Target(w, tr).Some?
    ensures IsDigest(Target(w, tr).value)
  {
    var k := LastWinsAt(Layers(w, tr.tar), tr.digests, tr.phase.image[tr.phase.next].name);
  }

  /** While it writes a file, a transfer does not rely on it. */
  lemma OpenIsProper(w: World, tr: Transfer)
    requires HasShape(w, tr) && Target(w, tr).Some?
    ensures var open := tr.(phase := tr.phase.(open := true));
            && HasShape(w, open) && (Proper(w, tr) ==> Proper(w, open)) && Target(w, open) == Target(w, tr)
            && (forall d :: Relies(w, open, d) ==> Some(d) != Target(w, tr) && Relies(w, tr, d))
  {
  }

  lemma OpeningIsTear(w: World, s: State, step: Step)
    requires Inv(w, s) && Opens(w, s, step)
    ensures IsTear(w, s, Do(w, s, step), Tear(step.id, Target(w, s.transfers[step.id]).value, []))
  {
    var tr := s.transfers[step.id];
    assert Sound(w, s.files, tr);
    TargetIsDigest(w, tr);
    OpenIsProper(w, tr);
    OpensOnce(w, s, step);
  }

  lemma PartIsTear(w: World, s: State, id: nat, bytes: Bytes)
    requires IsOpen(w, s, id) && Proper(w, s.transfers[id])
    ensures IsTear(w, s, Do(w, s, PartWritten(id, bytes)), Tear(id, Target(w, s.transfers[id]).value, bytes))
  {
    var tr := s.transfers[id];
    TargetIsDigest(w, tr);
    OpenIsNotRelied(w, tr);
    assert Do(w, s, PartWritten(id, bytes)) == WithFile(s, Target(w, tr).value, bytes);
  }

  lemma OpenIsNotRelied(w: World, tr: Transfer)
    requires tr.phase.Extracting? && tr.phase.open
    ensures forall d :: Relies(w, tr, d) ==> Some(d) != Target(w, tr)
  {
  }

  lemma OpensOnce(w: World, s: State, step: Step)
    requires Opens(w, s, step)
    ensures !Opens(w, Do(w, s, step), step)
    ensures Do(w, s, step)
         == WithPhase(WithFile(s, Target(w, s.transfers[step.id]).value, []), step.id,
                      s.transfers[step.id].phase.(open := true))
  {
  }

  lemma OtherFilesStay(truth: string -> Bytes, files: map<string, Bytes>, d: string, bytes: Bytes, x: string)
    requires IsDigest(d) && IsDigest(x) && HasTruth(truth, files, x)
    ensures HasTruth(truth, files[CacheDir(d) := bytes], x) <==> x != d || bytes == truth(d)
  {
    if CacheDir(x) == CacheDir(d) {
      CacheDirInjective(x, d);
    }
  }

  lemma TearKeepsInv(w: World, s: State, next: State, tear: Tear)
    requires Inv(w, s) && IsTear(w, s, next, tear)
    requires tear.bytes == w.truth(tear.digest) || !Relied(w, s, tear.id, tear.digest)
    ensures Inv(w, next)
  {
    forall x | x in s.known ensures IsDigest(x) && HasTruth(w.truth, next.files, x) {
      OtherFilesStay(w.truth, s.files, tear.digest, tear.bytes, x);
    }
    forall id | id in next.transfers ensures Sound(w, next.files, next.transfers[id]) {
      TearKeepsSound(w, s, next, tear, id);
    }
  }

  lemma TearKeepsSound(w: World, s: State, next: State, tear: Tear, id: nat)
    requires Inv(w, s) && IsTear(w, s, next, tear) && id in next.transfers
    requires tear.bytes == w.truth(tear.digest) || !Relied(w, s, tear.id, tear.digest)
    ensures Sound(w, next.files, next.transfers[id])
  {
    assert Sound(w, s.files, s.transfers[id]);
    forall x | Relies(w, next.transfers[id], x) ensures HasTruth(w.truth, next.files, x) {
      ReliedAreDigests(w, s.transfers[id], x);
      OtherFilesStay(w.truth, s.files, tear.digest, tear.bytes, x);
    }
  }

  lemma TearBreaksInv(w: World, s: State, next: State, tear: Tear)
    requires IsTear(w, s, next, tear)
    requires tear.bytes != w.truth(tear.digest) && Relied(w, s, tear.id, tear.digest)
    ensures !Inv(w, next)
  {
    assert !HasTruth(w.truth, next.files, tear.digest);
    if tear.digest !in s.known {
      var other :| other in s.transfers && other != tear.id && Relies(w, s.transfers[other], tear.digest);
      assert next.transfers[other] == s.transfers[other] && !Sound(w, next.files, next.transfers[other]);
    }
  }

  /** MAIN, one step: the invariant survives if and only if no relied file is torn. */
  lemma StepTearsIff(w: World, s: State, step: Step)
    requires Inv(w, s)
    requires step.Request? ==> WellFormed(w.json, w.truth, step.tar, step.digests)
    ensures Inv(w, Do(w, s, step)) <==> !Tears(w, s, step)
  {
    if TearOf(w, s, step).Some? {
      var tear, next := TearOf(w, s, step).value, Do(w, s, step);
      assert Sound(w, s.files, s.transfers[step.id]);
      if Opens(w, s, step) { OpeningIsTear(w, s, step); } else { PartIsTear(w, s, step.id, step.bytes); }
      if Tears(w, s, step) { TearBreaksInv(w, s, next, tear); } else { TearKeepsInv(w, s, next, tear); }
    } else {
      UntornKeepsInv(w, s, step);
    }
  }

  lemma UntornKeepsInv(w: World, s: State, step: Step)
    requires Inv(w, s) && TearOf(w, s, step).None?
    requires step.Request? ==> WellFormed(w.json, w.truth, step.tar, step.digests)
    ensures Inv(w, Do(w, s, step))
  {
    match step {
      case Advance(id) => if id in s.transfers { AdvanceKeepsInv(w, s, id); }
      case Request(id, t, digests) => RequestKeepsInv(w, s, id, t, digests);
      case PartWritten(id, _) => assert !IsOpen(w, s, id);
      case GiveUpCaching(id) => GiveUpKeepsInv(w, s, id);
      case Abort(id) => AbortKeepsInv(w, s, id);
      case ClearCacheMemory =>
      case ClearLedgerOnly =>
    }
  }

  //
  // Whole runs.
  //

  /** Coherent stores, no transfers yet, and only well-formed images to come. */
  ghost predicate Starts(w: World, s: State, steps: seq<Step>) {
    && Coherent(w.truth, s.known, s.files) && s.transfers == map[]
    && forall n :: 0 <= n < |steps| && steps[n].Request? ==> WellFormed(w.json, w.truth, steps[n].tar, steps[n].digests)
  }

  lemma RunNext(w: World, s: State, steps: seq<Step>, n: nat)
    requires n < |steps|
    ensures Run(w, s, steps[..n + 1]) == Do(w, Run(w, s, steps[..n]), steps[n])
  {
    assert steps[..n + 1][..n] == steps[..n] && steps[..n + 1][n] == steps[n];
  }

  ghost predicate TearsAt(w: World, s: State, steps: seq<Step>, n: nat)
    requires n < |steps|
  {
    Tears(w, Run(w, s, steps[..n]), steps[n])
  }

  ghost predicate InvAt(w: World, s: State, steps: seq<Step>, n: nat)
    requires n <= |steps|
  {
    Inv(w, Run(w, s, steps[..n]))
  }

  lemma InvAtNext(w: World, s: State, steps: seq<Step>, n: nat)
    requires Starts(w, s, steps) && n < |steps| && InvAt(w, s, steps, n)
    ensures InvAt(w, s, steps, n + 1) <==> !TearsAt(w, s, steps, n)
  {
    RunNext(w, s, steps, n);
    StepTearsIff(w, Run(w, s, steps[..n]), steps[n]);
  }

  lemma {:induction false} InvUntilTear(w: World, s: State, steps: seq<Step>, n: nat)
    requires Starts(w, s, steps) && n <= |steps|
    requires forall m :: 0 <= m < n ==> !TearsAt(w, s, steps, m)
    ensures InvAt(w, s, steps, n)
  {
    if n == 0 {
      assert steps[..0] == [];
    } else {
      InvUntilTear(w, s, steps, n - 1);
      InvAtNext(w, s, steps, n - 1);
    }
  }

  /** The strict form: the stores and all transfers are sound at each point of a run, also between the
      creation of a file and its completion, if and only if no step tears a relied file. */
  lemma CoherentIffNothingTorn(w: World, s: State, steps: seq<Step>)
    requires Starts(w, s, steps)
    ensures (forall n :: 0 <= n <= |steps| ==> InvAt(w, s, steps, n))
       <==> (forall n :: 0 <= n < |steps| ==> !TearsAt(w, s, steps, n))
  {
    if forall n :: 0 <= n <= |steps| ==> InvAt(w, s, steps, n) {
      forall n | 0 <= n < |steps| ensures !TearsAt(w, s, steps, n) {
        InvAtNext(w, s, steps, n);
      }
    }
    if forall n :: 0 <= n < |steps| ==> !TearsAt(w, s, steps, n) {
      forall n | 0 <= n <= |steps| ensures InvAt(w, s, steps, n) {
        InvUntilTear(w, s, steps, n);
      }
    }
  }

  /** Each file that is opened is completed by the next step of all. */
  ghost predicate WritesAtOnce(w: World, s: State, steps: seq<Step>) {
    forall n :: 0 <= n < |steps| && OpensAt(w, s, steps, n) ==> n + 1 < |steps| && steps[n + 1] == steps[n]
  }

  predicate OpensAt(w: World, s: State, steps: seq<Step>, n: nat)
    requires n < |steps|
  {
    Opens(w, Run(w, s, steps[..n]), steps[n])
  }

  ghost predicate NoneOpen(w: World, s: State) {
    forall id :: !IsOpen(w, s, id)
  }

  /** Opening and completing a file in one go is a step like the others: without the truncation it
      leaves the same stores. */
  lemma WholeWriteKeepsInv(w: World, s: State, step: Step)
    requires Inv(w, s) && Opens(w, s, step)
    ensures Inv(w, Do(w, Do(w, s, step), step))
  {
    var tr := s.transfers[step.id];
    var begun := WithPhase(s, step.id, tr.phase.(open := true));
    assert Sound(w, s.files, tr);
    OpenIsProper(w, tr);
    StopKeepsInv(w, s, step.id, tr.phase.(open := true));
    AdvanceKeepsInv(w, begun, step.id);
    CompletingForgets(w, s, step);
  }

  lemma CompletingForgets(w: World, s: State, step: Step)
    requires Opens(w, s, step)
    ensures Do(w, Do(w, s, step), step)
         == Do(w, WithPhase(s, step.id, s.transfers[step.id].phase.(open := true)), step)
  {
    OpensOnce(w, s, step);
    var tr := s.transfers[step.id];
    var dir, data := CacheDir(Target(w, tr).value), tr.phase.image[tr.phase.next].data;
    assert s.files[dir := []][dir := data] == s.files[dir := data];
  }

  lemma WholeWriteCloses(w: World, s: State, step: Step)
    requires NoneOpen(w, s) && Opens(w, s, step)
    ensures NoneOpen(w, Do(w, Do(w, s, step), step))
  {
    CompletingForgets(w, s, step);
    var tr := s.transfers[step.id];
    var begun := WithPhase(s, step.id, tr.phase.(open := true));
    assert Target(w, begun.transfers[step.id]) == Target(w, tr);
    forall other ensures !IsOpen(w, Do(w, begun, step), other) {
      assert !IsOpen(w, s, other);
    }
  }

  lemma OtherStepsOpenNothing(w: World, s: State, step: Step)
    requires NoneOpen(w, s) && !Opens(w, s, step)
    ensures NoneOpen(w, Do(w, s, step)) && TearOf(w, s, step).None?
  {
    assert step.PartWritten? ==> !IsOpen(w, s, step.id);
    forall other ensures !IsOpen(w, Do(w, s, step), other) {
      assert !IsOpen(w, s, other);
    }
  }

  ghost predicate QuietAt(w: World, s: State, steps: seq<Step>, n: nat)
    requires n <= |steps|
  {
    InvAt(w, s, steps, n) && NoneOpen(w, Run(w, s, steps[..n]))
  }

  lemma WholeWriteAt(w: World, s: State, steps: seq<Step>, n: nat)
    requires n + 1 < |steps| && steps[n + 1] == steps[n]
    requires QuietAt(w, s, steps, n) && OpensAt(w, s, steps, n)
    ensures QuietAt(w, s, steps, n + 2)
  {
    RunNext(w, s, steps, n);
    RunNext(w, s, steps, n + 1);
    WholeWriteKeepsInv(w, Run(w, s, steps[..n]), steps[n]);
    WholeWriteCloses(w, Run(w, s, steps[..n]), steps[n]);
  }

  lemma OpensOnceAt(w: World, s: State, steps: seq<Step>, n: nat)
    requires n + 1 < |steps| && steps[n + 1] == steps[n] && OpensAt(w, s, steps, n)
    ensures !OpensAt(w, s, steps, n + 1)
  {
    RunNext(w, s, steps, n);
    OpensOnce(w, Run(w, s, steps[..n]), steps[n]);
  }

  lemma OtherStepAt(w: World, s: State, steps: seq<Step>, n: nat)
    requires Starts(w, s, steps) && n < |steps|
    requires QuietAt(w, s, steps, n) && !OpensAt(w, s, steps, n)
    ensures QuietAt(w, s, steps, n + 1)
  {
    RunNext(w, s, steps, n);
    OtherStepsOpenNothing(w, Run(w, s, steps[..n]), steps[n]);
    InvAtNext(w, s, steps, n);
  }

  lemma {:induction false} WholeWritesKeepInv(w: World, s: State, steps: seq<Step>, n: nat)
    requires Starts(w, s, steps) && WritesAtOnce(w, s, steps) && n <= |steps|
    ensures (n > 0 && OpensAt(w, s, steps, n - 1)) || QuietAt(w, s, steps, n)
  {
    if n == 0 {
      assert steps[..0] == [];
    } else if !OpensAt(w, s, steps, n - 1) {
      if n > 1 && OpensAt(w, s, steps, n - 2) {
        if n > 2 && OpensAt(w, s, steps, n - 3) {
          OpensOnceAt(w, s, steps, n - 3);
        }
        WholeWritesKeepInv(w, s, steps, n - 2);
        WholeWriteAt(w, s, steps, n - 2);
      } else {
        WholeWritesKeepInv(w, s, steps, n - 1);
        OtherStepAt(w, s, steps, n - 1);
      }
    }
  }

  /** What stays of the stores and the transfers when the garbage is collected or caching fails: clearing
      the cache memory forgets every layer and nothing else, clearing the ledger's history nothing, and
      a receive whose caching fails is completed with its image. */
  lemma CleaningAndFailing(w: World, s: State, id: nat)
    ensures Do(w, s, ClearCacheMemory).known == {}
    ensures Do(w, s, ClearCacheMemory).files == s.files && Do(w, s, ClearCacheMemory).transfers == s.transfers
    ensures Do(w, s, ClearLedgerOnly) == s
    ensures id in s.transfers && (s.transfers[id].phase.Rebuilt? || s.transfers[id].phase.Extracting?) ==>
              var now := Do(w, s, GiveUpCaching(id));
              && now.known == s.known && now.files == s.files && id in now.transfers
              && now.transfers[id].phase == Completed(s.transfers[id].phase.image)
    ensures id in s.transfers ==>
              Do(w, s, Abort(id)) == s.(transfers := s.transfers[id := s.transfers[id].(phase := Aborted)])
  {
  }
}
