/**
 * The few Python `str` operations the prompt builder relies on, stated over
 * Dafny strings (sequences of Unicode code points).
 */
module Text {
  import opened Options

  /** Python's `str.isspace()` for a single code point. */
  predicate IsSpace(c: char) {
    c == ' ' || ('\t' <= c <= '\r')
    || ('\U{1C}' <= c <= '\U{1F}') || c == '\U{85}' || c == '\U{A0}' || c == '\U{1680}'
    || ('\U{2000}' <= c <= '\U{200A}') || c == '\U{2028}' || c == '\U{2029}'
    || c == '\U{202F}' || c == '\U{205F}' || c == '\U{3000}'
  }

  /** Python's `str.lstrip()`: drop leading white space. */
  function TrimStart(s: string): (r: string)
    ensures |r| <= |s| && r == s[|s| - |r|..]
    ensures r == [] || !IsSpace(r[0])
    ensures forall i :: 0 <= i < |s| - |r| ==> IsSpace(s[i])
  {
    if s != [] && IsSpace(s[0]) then TrimStart(s[1..]) else s
  }

  /** Python's `str.rstrip()`: drop trailing white space. */
  function TrimEnd(s: string): (r: string)
    ensures |r| <= |s| && r == s[..|r|]
    ensures r == [] || !IsSpace(r[|r| - 1])
    ensures forall i :: |r| <= i < |s| ==> IsSpace(s[i])
  {
    if s != [] && IsSpace(s[|s| - 1]) then TrimEnd(s[..|s| - 1]) else s
  }

  /** Neither end of `s` is white space. */
  predicate IsTrimmed(s: string) {
    s == [] || (!IsSpace(s[0]) && !IsSpace(s[|s| - 1]))
  }

  /** Python's `str.strip()`: `s` without its white-space margins. */
  function Strip(s: string): (r: string)
    ensures IsTrimmed(r)
  {
    TrimEnd(TrimStart(s))
  }

  /** `r` is the stretch of `s` at `a`, and every character of `s` around it is white space. */
  predicate WithinMargins(s: string, r: string, a: int) {
    0 <= a && a + |r| <= |s| && r == s[a..a + |r|]
    && (forall i :: 0 <= i < a ==> IsSpace(s[i]))
    && (forall i :: a + |r| <= i < |s| ==> IsSpace(s[i]))
  }

  /** A prefix `r` of a suffix `t` of `s`, with white space around it, lies within white-space margins. */
  lemma SliceWithinMargins(s: string, t: string, r: string)
    requires |t| <= |s| && t == s[|s| - |t|..] && |r| <= |t| && r == t[..|r|]
    requires forall i :: 0 <= i < |s| - |t| ==> IsSpace(s[i])
    requires forall i :: |r| <= i < |t| ==> IsSpace(t[i])
    ensures WithinMargins(s, r, |s| - |t|)
  {
    var a := |s| - |t|;
    assert r == s[a..a + |r|];
    forall i | a + |r| <= i < |s|
      ensures IsSpace(s[i])
    {
      assert s[i] == t[i - a];
    }
  }

  /** `Strip(s)` is `s` with only white-space margins removed. */
  lemma StripMargins(s: string)
    ensures exists a :: WithinMargins(s, Strip(s), a)
  {
    var t := TrimStart(s);
    assert Strip(s) == TrimEnd(t);
    SliceWithinMargins(s, t, TrimEnd(t));
  }

  /** Stripping keeps a middle stretch of `s`: it has no character that `s` lacks. */
  lemma StripChars(s: string)
    ensures forall c :: c in Strip(s) ==> c in s
  {
    assert Strip(s) == s[|s| - |TrimStart(s)|..][..|Strip(s)|];
  }

  /** No character of `s` is in `bad`. */
  predicate Avoids(s: string, bad: set<char>) {
    forall c :: c in s ==> c !in bad
  }

  /** `pat` occurs in `s` starting at index `i`. */
  predicate OccursAt(s: string, pat: string, i: int) {
    0 <= i && i + |pat| <= |s| && s[i..i + |pat|] == pat
  }

  /** Python's `pat in s` for strings. */
  predicate Contains(s: string, pat: string) {
    exists i :: 0 <= i <= |s| - |pat| && OccursAt(s, pat, i)
  }

  /** Python's `s.startswith(p)`. */
  predicate HasPrefix(s: string, p: string) {
    |p| <= |s| && s[..|p|] == p
  }

  /** The first index at or after `from` where `pat` occurs (Python's `s.find(pat, from)`). */
  function IndexOfFrom(s: string, pat: string, from: nat): (r: Option<nat>)
    decreases |s| - from
    ensures r.Some? ==> from <= r.value && OccursAt(s, pat, r.value)
    ensures r.Some? ==> forall j :: from <= j < r.value ==> !OccursAt(s, pat, j)
    ensures r.None? ==> forall j :: from <= j ==> !OccursAt(s, pat, j)
  {
    if from + |pat| > |s| then None
    else if s[from..from + |pat|] == pat then Some(from)
    else IndexOfFrom(s, pat, from + 1)
  }

  /** The first index where `pat` occurs in `s`, if any. */
  function IndexOf(s: string, pat: string): (r: Option<nat>)
    ensures r.Some? <==> Contains(s, pat)
    ensures r.Some? ==> OccursAt(s, pat, r.value)
    ensures r.Some? ==> forall j :: 0 <= j < r.value ==> !OccursAt(s, pat, j)
  {
    var r := IndexOfFrom(s, pat, 0);
    assert r.Some? ==> 0 <= r.value <= |s| - |pat| && OccursAt(s, pat, r.value);
    r
  }

  /** Python's `s.split(sep)` for a one-character separator. */
  function Split(s: string, sep: char): (parts: seq<string>)
    ensures |parts| >= 1
    ensures forall k :: 0 <= k < |parts| ==> sep !in parts[k]
    ensures forall k, c :: 0 <= k < |parts| && c in parts[k] ==> c in s
    ensures Join(parts, [sep]) == s
  {
    if s == [] then [""]
    else
      var rest := Split(s[1..], sep);
      assert forall c :: c in s[1..] ==> c in s;
      if s[0] == sep then
        assert ([""] + rest)[1..] == rest;
        [""] + rest
      else
        var parts := [[s[0]] + rest[0]] + rest[1..];
        assert Join(parts, [sep]) == s by {
          if |rest| == 1 {
            assert Join(parts, [sep]) == [s[0]] + rest[0];
          } else {
            assert parts[1..] == rest[1..];
            assert Join(rest, [sep]) == rest[0] + [sep] + Join(rest[1..], [sep]);
            assert Join(parts, [sep]) == [s[0]] + rest[0] + [sep] + Join(rest[1..], [sep]);
          }
        }
        parts
  }

  /** Splitting a text that starts with a separator-free stretch `x` puts `x` in front of the first part. */
  lemma {:induction false} SplitAfterAvoiding(x: string, y: string, sep: char)
    requires sep !in x
    ensures Split(x + y, sep) == [x + Split(y, sep)[0]] + Split(y, sep)[1..]
    decreases |x|
  {
    if x == [] {
      var t := Split(y, sep);
      assert x + y == y && x + t[0] == t[0];
      assert [t[0]] + t[1..] == t;
    } else {
      assert (x + y)[0] == x[0] && (x + y)[1..] == x[1..] + y;
      assert x[0] in x;
      SplitAfterAvoiding(x[1..], y, sep);
      var r, t := Split(x[1..] + y, sep), Split(y, sep);
      assert Split(x + y, sep) == [[x[0]] + r[0]] + r[1..];
      assert r[0] == x[1..] + t[0] && r[1..] == t[1..];
      assert [x[0]] + (x[1..] + t[0]) == x + t[0];
    }
  }

  /** A leading separator contributes an empty first part. */
  lemma SplitAtSeparator(y: string, sep: char)
    ensures Split([sep] + y, sep) == [""] + Split(y, sep)
  {
    assert ([sep] + y)[1..] == y;
  }

  /** Python's `sep.join(parts)`. */
  function Join(parts: seq<string>, sep: string): (r: string)
    ensures parts == [] ==> r == ""
  {
    if parts == [] then ""
    else if |parts| == 1 then parts[0]
    else parts[0] + sep + Join(parts[1..], sep)
  }

  /** `s` with every character of `bad` deleted (a chain of `s.replace(c, "")`). */
  function RemoveAll(s: string, bad: set<char>): (r: string)
    ensures Avoids(r, bad)
    ensures forall c :: c in r <==> c in s && c !in bad
    ensures Avoids(s, bad) ==> r == s
  {
    if s == [] then []
    else
      var rest := RemoveAll(s[1..], bad);
      assert forall c :: c in s <==> c == s[0] || c in s[1..];
      assert s == [s[0]] + s[1..];
      (if s[0] in bad then [] else [s[0]]) + rest
  }

  /**
   * Deleting characters works piece by piece: together with the contract of
   * `RemoveAll` on a single character, this says the kept characters stay in
   * their order.
   */
  lemma {:induction false} RemoveAllConcat(a: string, b: string, bad: set<char>)
    ensures RemoveAll(a + b, bad) == RemoveAll(a, bad) + RemoveAll(b, bad)
    decreases |a|
  {
    if a == [] {
      assert a + b == b;
    } else {
      assert (a + b)[0] == a[0] && (a + b)[1..] == a[1..] + b;
      RemoveAllConcat(a[1..], b, bad);
    }
  }

  /** `", ".join(...)` of parts free of `bad`, with a separator free of `bad`, is free of `bad`. */
  lemma {:induction false} JoinAvoids(parts: seq<string>, sep: string, bad: set<char>)
    requires forall k :: 0 <= k < |parts| ==> Avoids(parts[k], bad)
    requires Avoids(sep, bad)
    ensures Avoids(Join(parts, sep), bad)
  {
    if |parts| > 1 {
      JoinAvoids(parts[1..], sep, bad);
      assert parts[1..][0] == parts[1];
      var j := Join(parts[1..], sep);
      assert forall c :: c in parts[0] + sep + j ==> c in parts[0] || c in sep || c in j;
    }
  }

  /** A string already without margins strips to itself. */
  lemma StripTrimmed(s: string)
    requires IsTrimmed(s)
    ensures Strip(s) == s
  {
  }

  /** One leading space before a non-empty trimmed string is stripped away. */
  lemma StripLeadingSpace(t: string)
    requires t != [] && IsTrimmed(t)
    ensures Strip(" " + t) == t
  {
    assert (" " + t)[1..] == t;
    assert TrimStart(" " + t) == TrimStart(t);
  }

  /**
   * Python's `s.lower() == "none"`. The only code points whose lower case is
   * `n`, `o` or `e` are those letters and their ASCII capitals, and no code
   * point lowers to a string that contributes to "none" otherwise.
   */
  predicate LowerIsNone(s: string) {
    && |s| == 4
    && (s[0] == 'n' || s[0] == 'N')
    && (s[1] == 'o' || s[1] == 'O')
    && (s[2] == 'n' || s[2] == 'N')
    && (s[3] == 'e' || s[3] == 'E')
  }

  /** Python's `a < b` on strings: lexicographic by code point. */
  predicate Less(a: string, b: string) {
    if a == [] then b != []
    else if b == [] then false
    else if a[0] != b[0] then a[0] < b[0]
    else Less(a[1..], b[1..])
  }

  lemma {:induction false} LessIrreflexive(a: string)
    ensures !Less(a, a)
  {
    if a != [] {
      LessIrreflexive(a[1..]);
    }
  }

  lemma {:induction false} LessTransitive(a: string, b: string, c: string)
    requires Less(a, b) && Less(b, c)
    ensures Less(a, c)
  {
    if a != [] && b != [] && c != [] && a[0] == b[0] == c[0] {
      LessTransitive(a[1..], b[1..], c[1..]);
    }
  }

  lemma {:induction false} LessTotal(a: string, b: string)
    requires a != b
    ensures Less(a, b) || Less(b, a)
  {
    if a != [] && b != [] && a[0] == b[0] {
      assert a == [a[0]] + a[1..] && b == [b[0]] + b[1..];
      LessTotal(a[1..], b[1..]);
    }
  }

  /** Every element is smaller than every later one, so there are no repeats. */
  predicate StrictlyAscending(s: seq<string>) {
    forall i, j :: 0 <= i < j < |s| ==> Less(s[i], s[j])
  }
}
