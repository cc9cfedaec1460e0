/** Loading a received image into Docker, keeping the image it replaces under a version tag. */
module LoadAndTag {
  import opened Wrappers

  /** Docker's tags and the ids of its images. */
  datatype Images = Images(tags: map<string, string>, ids: set<string>)

  /** An image is found by tag, or by its own id. */
  function Resolve(s: Images, ref: string): Option<string> {
    if ref in s.tags then Some(s.tags[ref])
    else if ref in s.ids then Some(ref)
    else None
  }

  function Digit(n: nat): char
    requires n < 10
  {
    "0123456789"[n]
  }

  function Decimal(n: nat): (r: string)
    ensures |r| > 0
  {
    if n < 10 then [Digit(n)] else Decimal(n / 10) + [Digit(n % 10)]
  }

  /** The number a decimal numeral stands for. */
  function Value(s: string): nat {
    if s == [] then 0
    else 10 * Value(s[..|s| - 1]) + (if '0' <= s[|s| - 1] <= '9' then (s[|s| - 1] - '0') as nat else 0)
  }

  lemma {:induction false} DecimalRoundTrip(n: nat)
    ensures Value(Decimal(n)) == n
    ensures '0' <= Decimal(n)[|Decimal(n)| - 1] <= '9'
  {
    if n >= 10 {
      DecimalRoundTrip(n / 10);
      assert Decimal(n)[..|Decimal(n)| - 1] == Decimal(n / 10);
    } else {
      assert Decimal(n)[..0] == [];
    }
  }

  function VersionTag(repo: string, i: nat): string {
    repo + ":v" + Decimal(i)
  }

  lemma VersionTagsDiffer(repo: string, i: nat, j: nat)
    requires VersionTag(repo, i) == VersionTag(repo, j)
    ensures i == j
  {
    assert VersionTag(repo, i)[|repo| + 2..] == Decimal(i);
    assert VersionTag(repo, j)[|repo| + 2..] == Decimal(j);
    DecimalRoundTrip(i);
    DecimalRoundTrip(j);
  }

  /** The text after the last colon, if that is a tag and not a registry port. */
  function RepoOf(name: string): string {
    var i := LastIndex(name, ':');
    if i >= 0 && '/' !in name[i..] then name[..i] else name
  }

  function LastIndex(s: string, c: char): (i: int)
    ensures -1 <= i < |s|
    ensures i >= 0 ==> s[i] == c
    ensures forall j :: i < j < |s| ==> s[j] != c
  {
    if s == [] then -1
    else if s[|s| - 1] == c then |s| - 1
    else LastIndex(s[..|s| - 1], c)
  }

  /** A tag is stripped, a registry port is not. */
  lemma RepoStripsTagsOnly(repo: string, tag: string, path: string)
    requires ':' !in tag && '/' !in tag
    ensures RepoOf(repo + ":" + tag) == repo
    ensures ':' !in path ==> RepoOf(repo + ":" + path + "/" + tag) == repo + ":" + path + "/" + tag
    ensures ':' !in repo ==> RepoOf(repo) == repo
  {
    var tagged := repo + ":" + tag;
    assert tagged[|repo|] == ':';
    assert forall j :: |repo| < j < |tagged| ==> tagged[j] == tag[j - |repo| - 1];
    assert LastIndex(tagged, ':') == |repo|;
    assert tagged[|repo|..] == ":" + tag;
    if ':' !in path {
      var ported := repo + ":" + path + "/" + tag;
      var slash := |repo| + 1 + |path|;
      assert ported[|repo|] == ':' && ported[slash] == '/';
      assert forall j :: |repo| < j < slash ==> ported[j] == path[j - |repo| - 1];
      assert forall j :: slash < j < |ported| ==> ported[j] == tag[j - slash - 1];
      assert LastIndex(ported, ':') == |repo|;
      assert ported[|repo|..][slash - |repo|] == '/';
    }
  }

  /** An inspection finds an image that is there, unless it fails; the source takes both other cases
      for an unused reference. */
  predicate Found(s: Images, ref: string, blind: set<string>) {
    Resolve(s, ref).Some? && ref !in blind
  }

  /** The smallest version from 1 on whose tag is not found. */
  ghost predicate IsLeastUnseen(s: Images, repo: string, blind: set<string>, i: nat) {
    && 1 <= i && !Found(s, VersionTag(repo, i), blind)
    && forall j :: 1 <= j < i ==> Found(s, VersionTag(repo, j), blind)
  }

  /** The smallest version from 1 on whose tag belongs to no image. */
  ghost predicate IsLeastFree(s: Images, repo: string, i: nat) {
    IsLeastUnseen(s, repo, {}, i)
  }

  /** `left` are references not tried yet: it shrinks with every taken version, so the search ends. */
  lemma {:induction false} SearchEnds(s: Images, repo: string, blind: set<string>, i: nat, left: set<string>)
    returns (k: nat)
    requires 1 <= i && forall j :: 1 <= j < i ==> Found(s, VersionTag(repo, j), blind)
    requires forall j: nat :: j >= i && Found(s, VersionTag(repo, j), blind) ==> VersionTag(repo, j) in left
    ensures IsLeastUnseen(s, repo, blind, k)
    decreases |left|
  {
    if !Found(s, VersionTag(repo, i), blind) {
      k := i;
    } else {
      forall j: nat | j >= i + 1 && Found(s, VersionTag(repo, j), blind)
        ensures VersionTag(repo, j) in left - {VersionTag(repo, i)}
      {
        if VersionTag(repo, j) == VersionTag(repo, i) {
          VersionTagsDiffer(repo, i, j);
        }
      }
      k := SearchEnds(s, repo, blind, i + 1, left - {VersionTag(repo, i)});
    }
  }

  /** The version the search stops at, in any store. */
  ghost function NextVersion(s: Images, repo: string, blind: set<string>): (i: nat)
    ensures IsLeastUnseen(s, repo, blind, i)
  {
    AnUnseenVersionExists(s, repo, blind);
    var i: nat :| IsLeastUnseen(s, repo, blind, i);
    i
  }

  lemma AnUnseenVersionExists(s: Images, repo: string, blind: set<string>)
    ensures exists i: nat :: IsLeastUnseen(s, repo, blind, i)
  {
    var k := SearchEnds(s, repo, blind, 1, s.tags.Keys + s.ids);
  }

  class Docker {
    var images: Images

    constructor (images: Images)
      ensures this.images == images
    {
      this.images := images;
    }

    method ImageInspect(ref: string, blind: set<string>) returns (found: bool)
      ensures found <==> Found(images, ref, blind)
    {
      found := ref !in blind && Resolve(images, ref).Some?;
    }

    method ImageTag(source: string, target: string) returns (ok: bool)
      modifies this
      ensures ok <==> Resolve(old(images), source).Some?
      ensures images == if ok then old(images).(tags := old(images).tags[target := Resolve(old(images), source).value])
                        else old(images)
    {
      var id := Resolve(images, source);
      ok := id.Some?;
      if ok {
        images := images.(tags := images.tags[target := id.value]);
      }
    }

    /** Loading adds the image and moves its tag; the reply names the tag, or the id without one. */
    method ImageLoad(tar: ImageTar) returns (loaded: string)
      modifies this
      ensures images == Loaded(old(images), tar) && loaded == tar.Ref()
    {
      images := Loaded(images, tar);
      loaded := tar.Ref();
    }

    method ImageRemove(ref: string)
      modifies this
      ensures images == old(images).(tags := old(images).tags - {ref})
    {
      images := images.(tags := images.tags - {ref});
    }
  }

  /** What a received tarball carries: an image id and at most one tag. */
  datatype ImageTar = ImageTar(tag: Option<string>, id: string) {
    function Ref(): string {
      if tag.Some? then tag.value else id
    }
  }

  /** Which of the Docker calls fail: the inspection of some references, and the other four. The reply
      to a load can also be unreadable, or name no image, when the tarball is loaded already. */
  datatype Faults = Faults(blind: set<string>, backup: bool, load: bool, reply: bool, retag: bool, remove: bool)

  const NO_FAULTS := Faults({}, false, false, false, false, false)

  /** LoadAndTag reports an error. */
  predicate Fails(tar: ImageTar, name: string, f: Faults) {
    f.load || f.reply || (tar.Ref() != name && f.retag)
  }

  function Loaded(s: Images, tar: ImageTar): Images {
    Images(if tar.tag.Some? then s.tags[tar.tag.value := tar.id] else s.tags, s.ids + {tar.id})
  }

  const TMP_SUFFIX := "-baleen-tmp"

  /** The tag the image called `name` is backed up under. */
  ghost function BackupTag(s: Images, name: string, f: Faults): string {
    VersionTag(RepoOf(name), NextVersion(s, RepoOf(name), f.blind))
  }

  /** The store with the image called `name` backed up, if there is one that is found. */
  ghost function BackedUp(s: Images, name: string, f: Faults): Images {
    if !Found(s, name, f.blind) || f.backup then s
    else s.(tags := s.tags[BackupTag(s, name, f) := Resolve(s, name).value])
  }

  /** The store after the loaded image carries `name`, and its temporary tag is gone. */
  function Retagged(s: Images, loaded: string, id: string, name: string, f: Faults): Images {
    var named := s.(tags := s.tags[name := id]);
    if loaded == name + TMP_SUFFIX && !f.remove then named.(tags := named.tags - {loaded}) else named
  }

  /** The store LoadAndTag leaves: nothing is loaded, or the name is not moved, when that call fails. */
  ghost function Final(s: Images, tar: ImageTar, name: string, f: Faults): Images {
    var before := BackedUp(s, name, f);
    if f.load then before
    else
      var loaded := Loaded(before, tar);
      if tar.Ref() == name || f.reply || f.retag then loaded
      else Retagged(loaded, tar.Ref(), Resolve(loaded, tar.Ref()).value, name, f)
  }

  /** LoadAndTag: the search for a free version, the backup, the load, the retag and the cleanup. */
  method LoadAndTag(docker: Docker, tar: ImageTar, name: string, f: Faults) returns (ok: bool)
    modifies docker
    ensures ok <==> !Fails(tar, name, f)
    ensures docker.images == Final(old(docker.images), tar, name, f)
  {
    ghost var start := docker.images;
    var known := docker.ImageInspect(name, f.blind);
    if known {
      var repo := RepoOf(name);
      var i := 1;
      ghost var left := start.tags.Keys + start.ids;
      var taken := docker.ImageInspect(VersionTag(repo, i), f.blind);
      while taken
        invariant docker.images == start && 1 <= i
        invariant taken <==> Found(start, VersionTag(repo, i), f.blind)
        invariant forall j :: 1 <= j < i ==> Found(start, VersionTag(repo, j), f.blind)
        invariant forall j: nat :: j >= i && Found(start, VersionTag(repo, j), f.blind) ==> VersionTag(repo, j) in left
        decreases |left|
      {
        forall j: nat | j >= i + 1 && VersionTag(repo, j) == VersionTag(repo, i) ensures false {
          VersionTagsDiffer(repo, i, j);
        }
        left := left - {VersionTag(repo, i)};
        i := i + 1;
        taken := docker.ImageInspect(VersionTag(repo, i), f.blind);
      }
      assert IsLeastUnseen(start, repo, f.blind, i) && i == NextVersion(start, repo, f.blind);
      if !f.backup {
        var _ := docker.ImageTag(name, VersionTag(repo, i));
      }
    }
    if f.load {
      return false;
    }
    var loaded := docker.ImageLoad(tar);
    if f.reply {
      return false;
    }
    if loaded != name {
      if f.retag {
        return false;
      }
      var _ := docker.ImageTag(loaded, name);
    }
    if loaded == name + TMP_SUFFIX && !f.remove {
      docker.ImageRemove(loaded);
    }
    return true;
  }

  /** The version tag is none of the two names the target image goes by. */
  lemma BackupIsAnotherName(s: Images, name: string, f: Faults)
    requires Found(s, name, f.blind)
    ensures BackupTag(s, name, f) != name && BackupTag(s, name, f) != name + TMP_SUFFIX
  {
    var i := NextVersion(s, RepoOf(name), f.blind);
    var backup := BackupTag(s, name, f);
    DecimalRoundTrip(i);
    assert backup[|backup| - 1] == Decimal(i)[|Decimal(i)| - 1];
    var tmp := name + TMP_SUFFIX;
    assert tmp[|tmp| - 1] == 'p';
  }

  /** An untagged tarball is known by its id, which is none of the tags at play. */
  ghost predicate IdIsNoTag(s: Images, tar: ImageTar, name: string, f: Faults) {
    tar.tag.None? ==> tar.id !in s.tags && tar.id != name && tar.id != BackupTag(s, name, f)
  }

  lemma LeastFreeIsUnique(s: Images, repo: string, i: nat, j: nat)
    requires IsLeastFree(s, repo, i) && IsLeastFree(s, repo, j)
    ensures i == j
  {
  }

  /** MAIN: before the load, the image called `name` has the least unused version tag if and only if its
      own inspection and the tagging succeed and the version the search stops at is really free. The
      older tags all stay unless that version belongs to another image. */
  lemma BackupIsFreshIff(s: Images, name: string, f: Faults)
    requires Resolve(s, name).Some?
    ensures var old', now := Resolve(s, name).value, BackedUp(s, name, f).tags;
            var least := VersionTag(RepoOf(name), NextVersion(s, RepoOf(name), {}));
            var backup := BackupTag(s, name, f);
            && (least in now && now[least] == old'
                <==> name !in f.blind && !f.backup && Resolve(s, backup).None?)
            && ((forall t :: t in s.tags ==> t in now && now[t] == s.tags[t])
                <==> name in f.blind || f.backup || backup !in s.tags || s.tags[backup] == old')
  {
    var repo := RepoOf(name);
    var i := NextVersion(s, repo, f.blind);
    if Resolve(s, VersionTag(repo, i)).None? {
      forall j | 1 <= j < i ensures Found(s, VersionTag(repo, j), {}) {
        assert Found(s, VersionTag(repo, j), f.blind);
      }
      LeastFreeIsUnique(s, repo, i, NextVersion(s, repo, {}));
    }
  }

  /** A failing inspection of the first version tag: the image it kept is left without any tag. */
  lemma OlderBackupIsLost(repo: string, tag: string, new': string, old': string)
    requires ':' !in tag && '/' !in tag && repo + ":" + tag != VersionTag(repo, 1) && new' != old'
    ensures var name, v1 := repo + ":" + tag, VersionTag(repo, 1);
            var s := Images(map[name := new', v1 := old'], {new', old'});
            BackedUp(s, name, NO_FAULTS.(blind := {v1})).tags == map[name := new', v1 := new']
  {
    var name, v1 := repo + ":" + tag, VersionTag(repo, 1);
    var s := Images(map[name := new', v1 := old'], {new', old'});
    RepoStripsTagsOnly(repo, tag, "");
    var i := NextVersion(s, repo, {v1});
    assert i > 1 ==> Found(s, VersionTag(repo, 1), {v1});
  }

  /** MAIN: when the image of that name is found and its backup succeeds, then whichever other calls
      fail, the old image stays reachable under the backup tag if and only if nothing is loaded or
      the tarball did not bring that very tag. */
  lemma OldImageKeptIffTagIsForeign(s: Images, tar: ImageTar, name: string, f: Faults)
    requires Found(s, name, f.blind) && IdIsNoTag(s, tar, name, f)
    requires !f.backup
    ensures var backup, now := BackupTag(s, name, f), Final(s, tar, name, f).tags;
            && backup in now
            && (now[backup] == Resolve(s, name).value
                <==> f.load || tar.tag != Some(backup) || tar.id == Resolve(s, name).value)
  {
    BackupIsAnotherName(s, name, f);
  }

  predicate SameTag(a: map<string, string>, b: map<string, string>, t: string) {
    (t in b <==> t in a) && (t in a ==> b[t] == a[t])
  }

  /** Whichever calls fail, the name ends up on the loaded image, or is left as it was. An error leaves
      it as it was, unless the reply to a load that moved the name itself was lost. */
  lemma NameMovesUnlessError(s: Images, tar: ImageTar, name: string, f: Faults)
    requires IdIsNoTag(s, tar, name, f)
    ensures var now := Final(s, tar, name, f).tags;
            if !Fails(tar, name, f) || (!f.load && tar.tag == Some(name)) then name in now && now[name] == tar.id
            else SameTag(s.tags, now, name)
  {
    if Found(s, name, f.blind) {
      BackupIsAnotherName(s, name, f);
    }
    assert |name + TMP_SUFFIX| > |name|;
  }

  /** A lost reply: an error is reported, and the name has moved all the same. */
  lemma NameMovesDespiteError(s: Images, name: string, id: string)
    ensures var tar, f := ImageTar(Some(name), id), NO_FAULTS.(reply := true);
            Fails(tar, name, f) && name in Final(s, tar, name, f).tags && Final(s, tar, name, f).tags[name] == id
  {
    NameMovesUnlessError(s, ImageTar(Some(name), id), name, NO_FAULTS.(reply := true));
  }

  /** Every tag but the name, the one the search stops at and the tarball's own is unchanged,
      whichever calls fail. */
  lemma OtherTagsStay(s: Images, tar: ImageTar, name: string, f: Faults, t: string)
    requires IdIsNoTag(s, tar, name, f)
    requires t != name && t != BackupTag(s, name, f) && Some(t) != tar.tag
    ensures SameTag(s.tags, Final(s, tar, name, f).tags, t)
  {
  }

  /** A tarball that carries the backup tag takes it from the old image, which is then left without
      any tag if the name was its only one. */
  lemma BackupTagIsTaken(s: Images, name: string, id: string)
    requires Resolve(s, name).Some? && id != Resolve(s, name).value
    ensures var backup := BackupTag(s, name, NO_FAULTS);
            var now := Final(s, ImageTar(Some(backup), id), name, NO_FAULTS).tags;
            && backup in now && now[backup] == id
            && ((forall t :: t in s.tags && s.tags[t] == Resolve(s, name).value ==> t == name)
                ==> Resolve(s, name).value !in now.Values)
  {
    var backup := BackupTag(s, name, NO_FAULTS);
    var tar := ImageTar(Some(backup), id);
    OldImageKeptIffTagIsForeign(s, tar, name, NO_FAULTS);
    NameMovesUnlessError(s, tar, name, NO_FAULTS);
    BackupIsAnotherName(s, name, NO_FAULTS);
    forall t | t != name && t != backup ensures SameTag(s.tags, Final(s, tar, name, NO_FAULTS).tags, t) {
      OtherTagsStay(s, tar, name, NO_FAULTS, t);
    }
  }

  /** MAIN: a tarball tagged with the name or its temporary form leaves exactly these changes: the
      name moved to the loaded image, and the version tag the search stopped at on the old one. The
      temporary tag is gone, unless its removal fails. */
  lemma BackupPreservesImages(s: Images, tar: ImageTar, name: string, blind: set<string>, removeFails: bool)
    requires Found(s, name, blind)
    requires tar.tag == Some(name) || tar.tag == Some(name + TMP_SUFFIX)
    ensures var f, tmp := NO_FAULTS.(blind := blind, remove := removeFails), name + TMP_SUFFIX;
            var others := if tar.tag == Some(name) then s.tags
                          else if removeFails then s.tags[tmp := tar.id]
                          else s.tags - {tmp};
            && IsLeastUnseen(s, RepoOf(name), blind, NextVersion(s, RepoOf(name), blind))
            && Final(s, tar, name, f).tags == others[BackupTag(s, name, f) := Resolve(s, name).value][name := tar.id]
  {
    BackupIsAnotherName(s, name, NO_FAULTS.(blind := blind, remove := removeFails));
    assert |name + TMP_SUFFIX| > |name|;
  }

  /** Images are only ever added, by a load that got as far as Docker. */
  lemma ImagesAreKept(s: Images, tar: ImageTar, name: string, f: Faults)
    ensures Final(s, tar, name, f).ids == if f.load then s.ids else s.ids + {tar.id}
  {
  }

  /** The first backup of a name without a tag, or with one. */
  lemma FirstBackupIsV1(s: Images, repo: string, tag: string, f: Faults)
    requires ':' !in repo && ':' !in tag && '/' !in tag
    requires Resolve(s, repo + ":v1").None?
    ensures BackupTag(s, repo, f) == repo + ":v1" && BackupTag(s, repo + ":" + tag, f) == repo + ":v1"
  {
    RepoStripsTagsOnly(repo, tag, "");
    assert Decimal(1) == "1";
    assert VersionTag(repo, 1) == repo + ":v1";
    var i := NextVersion(s, repo, f.blind);
    assert i > 1 ==> Found(s, VersionTag(repo, 1), f.blind);
  }
}
