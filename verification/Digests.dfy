/** Layer digests, the directory a digest is cached under, and lists keyed by digest. */
module Digests {

  predicate IsHexDigit(c: char) {
    '0' <= c <= '9' || 'a' <= c <= 'f' || 'A' <= c <= 'F'
  }

  /** `sha256:` and 64 hexadecimal digits of either case, nothing before or after. */
  predicate IsDigest(s: string) {
    |s| == 71 && s[..7] == "sha256:" && forall i :: 7 <= i < 71 ==> IsHexDigit(s[i])
  }

  /** The cache directory of a digest: each ':' replaced by '-'. */
  function CacheDir(digest: string): string {
    seq(|digest|, i requires 0 <= i < |digest| => if digest[i] == ':' then '-' else digest[i])
  }

  /** A valid digest is `sha256:` and 64 hexadecimal digits, and is cached under the same digits. */
  lemma DigestsAndTheirDirectories(hex: string)
    ensures IsDigest("sha256:" + hex) <==> |hex| == 64 && forall c :: c in hex ==> IsHexDigit(c)
    ensures ':' !in hex ==> CacheDir("sha256:" + hex) == "sha256-" + hex
    ensures forall d :: IsDigest(d) ==> d == "sha256:" + d[7..]
  {
    var d := "sha256:" + hex;
    assert d[..7] == "sha256:" && forall i :: 7 <= i < |d| ==> d[i] == hex[i - 7];
    forall c | c in hex && IsDigest(d) ensures IsHexDigit(c) {
      var i :| 0 <= i < |hex| && hex[i] == c;
      assert d[i + 7] == c;
    }
  }

  /** Two valid digests never share a cache directory. */
  lemma CacheDirInjective(a: string, b: string)
    requires IsDigest(a) && IsDigest(b)
    requires CacheDir(a) == CacheDir(b)
    ensures a == b
  {
    forall i | 0 <= i < 71 ensures a[i] == b[i] {
      assert CacheDir(a)[i] == CacheDir(b)[i];
      if i < 7 {
        assert a[i] == a[..7][i] && b[i] == b[..7][i];
      }
    }
  }

  /** A map filled from two parallel lists: the last value of a repeated key stays. */
  function LastWins(keys: seq<string>, values: seq<string>): map<string, string>
    requires |keys| == |values|
  {
    if keys == [] then map[]
    else LastWins(keys[..|keys| - 1], values[..|keys| - 1])[keys[|keys| - 1] := values[|keys| - 1]]
  }

  lemma {:induction false} LastWinsHas(keys: seq<string>, values: seq<string>, i: nat)
    requires i < |keys| == |values|
    ensures keys[i] in LastWins(keys, values)
  {
    if i < |keys| - 1 {
      LastWinsHas(keys[..|keys| - 1], values[..|keys| - 1], i);
    }
  }

  lemma {:induction false} LastWinsAt(keys: seq<string>, values: seq<string>, k: string) returns (i: nat)
    requires |keys| == |values| && k in LastWins(keys, values)
    ensures i < |keys| && keys[i] == k && values[i] == LastWins(keys, values)[k]
    ensures forall j :: i < j < |keys| ==> keys[j] != k
  {
    var n := |keys| - 1;
    if keys[n] == k {
      i := n;
    } else {
      i := LastWinsAt(keys[..n], values[..n], k);
    }
  }

  /** The members of a list that satisfy a set, in order and with repetitions. */
  function Within(list: seq<string>, s: set<string>): (r: seq<string>)
    ensures forall d :: d in r <==> d in list && d in s
  {
    if list == [] then []
    else Within(list[..|list| - 1], s) + (if list[|list| - 1] in s then [list[|list| - 1]] else [])
  }

  function Outside(list: seq<string>, s: set<string>): (r: seq<string>)
    ensures forall d :: d in r <==> d in list && d !in s
  {
    if list == [] then []
    else Outside(list[..|list| - 1], s) + (if list[|list| - 1] in s then [] else [list[|list| - 1]])
  }

  /** `picks` lists, in increasing order, the positions of the list whose membership in s is as wanted, and
      out is the list read at those positions. */
  ghost predicate IsPicked(list: seq<string>, s: set<string>, wanted: bool, picks: seq<nat>, out: seq<string>) {
    && |picks| == |out|
    && (forall k :: 0 <= k < |picks| ==> picks[k] < |list| && list[picks[k]] == out[k])
    && (forall j, k :: 0 <= j < k < |picks| ==> picks[j] < picks[k])
    && (forall i: nat :: i < |list| ==> (i in picks <==> (list[i] in s) == wanted))
  }

  lemma PickingOneMore(list: seq<string>, d: string, s: set<string>, wanted: bool, picks: seq<nat>, out: seq<string>)
    requires IsPicked(list, s, wanted, picks, out)
    ensures if (d in s) == wanted then IsPicked(list + [d], s, wanted, picks + [|list|], out + [d])
            else IsPicked(list + [d], s, wanted, picks, out)
  {
    assert forall k :: 0 <= k < |picks| ==> picks[k] < |list|;
    assert |list| !in picks;
  }

  /** Both parts keep the order of the list and its repetitions. */
  lemma {:induction false} WithinKeepsOrder(list: seq<string>, s: set<string>) returns (picks: seq<nat>)
    ensures IsPicked(list, s, true, picks, Within(list, s))
  {
    picks := [];
    if list != [] {
      var k := |list| - 1;
      picks := WithinKeepsOrder(list[..k], s);
      PickingOneMore(list[..k], list[k], s, true, picks, Within(list[..k], s));
      assert list == list[..k] + [list[k]];
      if list[k] in s { picks := picks + [k]; }
    }
  }

  lemma {:induction false} OutsideKeepsOrder(list: seq<string>, s: set<string>) returns (picks: seq<nat>)
    ensures IsPicked(list, s, false, picks, Outside(list, s))
  {
    picks := [];
    if list != [] {
      var k := |list| - 1;
      picks := OutsideKeepsOrder(list[..k], s);
      PickingOneMore(list[..k], list[k], s, false, picks, Outside(list[..k], s));
      assert list == list[..k] + [list[k]];
      if list[k] !in s { picks := picks + [k]; }
    }
  }
}
