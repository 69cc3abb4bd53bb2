/**
 * The list and string edits the callbacks apply to single session fields:
 * the duplicate-free vibe list and the structure line that tags are appended to.
 */
module Edits {
  import opened Text

  /** No value occurs twice. */
  predicate Distinct(s: seq<string>) {
    forall i, j :: 0 <= i < j < |s| ==> s[i] != s[j]
  }

  /** `if v not in lst: lst.append(v)`. */
  function AppendAbsent(s: seq<string>, v: string): (r: seq<string>)
    ensures Distinct(s) ==> Distinct(r)
    ensures forall x :: x in r <==> x in s || x == v
    ensures |s| <= |r| <= |s| + 1 && r[..|s|] == s
    ensures v in s ==> r == s
  {
    if v in s then s else s + [v]
  }

  /** The position `lst.pop(index)` removes: a negative index counts from the end. */
  function PyIndex(len: nat, index: int): int {
    if index < 0 then len + index else index
  }

  /** The list without its element at position `k`. */
  function RemoveAt(s: seq<string>, k: nat): (r: seq<string>)
    requires k < |s|
    ensures |r| == |s| - 1
    ensures forall i :: 0 <= i < k ==> r[i] == s[i]
    ensures forall i :: k <= i < |r| ==> r[i] == s[i + 1]
  {
    s[..k] + s[k + 1..]
  }

  /** Removing an element keeps the others, with their multiplicities, and adds nothing. */
  lemma RemoveAtMultiset(s: seq<string>, k: nat)
    requires k < |s|
    ensures multiset(RemoveAt(s, k)) + multiset{s[k]} == multiset(s)
  {
    assert s == s[..k] + [s[k]] + s[k + 1..];
  }

  /** Removing an element from a duplicate-free list leaves it duplicate-free and drops that value. */
  lemma RemoveAtDistinct(s: seq<string>, k: nat)
    requires k < |s| && Distinct(s)
    ensures Distinct(RemoveAt(s, k))
    ensures s[k] !in RemoveAt(s, k)
    ensures forall x :: x in RemoveAt(s, k) <==> x in s && x != s[k]
  {
    var r := RemoveAt(s, k);
    forall i, j | 0 <= i < j < |r| ensures r[i] != r[j] {
      var i' := if i < k then i else i + 1;
      var j' := if j < k then j else j + 1;
      assert r[i] == s[i'] && r[j] == s[j'] && i' < j';
    }
    forall x | x in s && x != s[k] ensures x in r {
      var i :| 0 <= i < |s| && s[i] == x;
      if i < k { assert r[i] == x; } else { assert r[i - 1] == x; }
    }
  }

  /** `f"{cur} {tag}" if cur else tag`. */
  function AppendTag(cur: string, tag: string): (r: string)
    ensures |r| == if cur == "" then |tag| else |cur| + 1 + |tag|
    ensures r[|r| - |tag|..] == tag
    ensures cur != "" ==> r[..|cur|] == cur && r[|cur|] == ' '
  {
    if cur != "" then cur + " " + tag else tag
  }

  /** Appending several tags one click after another. */
  function AppendTags(cur: string, tags: seq<string>): string
    decreases tags
  {
    if tags == [] then cur else AppendTags(AppendTag(cur, tags[0]), tags[1..])
  }

  lemma {:induction false} AppendTagsAfter(cur: string, tags: seq<string>)
    requires cur != "" && tags != []
    ensures AppendTags(cur, tags) == cur + " " + Join(tags, " ")
    decreases tags
  {
    if |tags| == 1 {
      assert AppendTags(AppendTag(cur, tags[0]), tags[1..]) == cur + " " + tags[0];
    } else {
      AppendTagsAfter(cur + " " + tags[0], tags[1..]);
      assert AppendTags(cur, tags) == AppendTags(cur + " " + tags[0], tags[1..]);
    }
  }

  /** Tags clicked into an empty structure line give the tags joined by single spaces. */
  lemma AppendTagsJoin(tags: seq<string>)
    requires forall k :: 0 <= k < |tags| ==> tags[k] != ""
    ensures AppendTags("", tags) == Join(tags, " ")
  {
    if |tags| == 1 {
      assert AppendTags("", tags) == AppendTags(tags[0], []);
    } else if |tags| > 1 {
      AppendTagsAfter(tags[0], tags[1..]);
      assert AppendTags("", tags) == AppendTags(tags[0], tags[1..]);
    }
  }
}
