/**
  Python string primitives that the core relies on: `str.isspace`, the regex
  classes `\s` and `\w`, `startswith`/`endswith`, substring search, `strip`,
  `split` and `join`. Whitespace and word characters are the ASCII ones.
 */
module Text {
  import opened Wrappers

  /** `str.isspace()` and the regex class `\s` on ASCII: space, \t \n \v \f \r and \x1c-\x1f. */
  predicate IsSpace(c: char) {
    c == ' ' || ('\t' <= c <= '\r') || ('\U{1C}' <= c <= '\U{1F}')
  }

  /** The regex class `\w` on ASCII. */
  predicate IsWordChar(c: char) {
    ('a' <= c <= 'z') || ('A' <= c <= 'Z') || ('0' <= c <= '9') || c == '_'
  }

  predicate AllSpace(s: string) {
    forall i :: 0 <= i < |s| ==> IsSpace(s[i])
  }

  /** A string with no leading and no trailing whitespace. */
  predicate IsTrimmed(s: string) {
    s == [] || (!IsSpace(s[0]) && !IsSpace(s[|s| - 1]))
  }

  predicate StartsWith(s: string, prefix: string) {
    |prefix| <= |s| && s[..|prefix|] == prefix
  }

  predicate EndsWith(s: string, suffix: string) {
    |suffix| <= |s| && s[|s| - |suffix|..] == suffix
  }

  /** `s[i:j]` for indices inside `s`; the empty string otherwise. */
  function Slice(s: string, i: int, j: int): (r: string)
  {
    if 0 <= i <= j <= |s| then s[i..j] else []
  }

  /** `pat` occurs in `s` starting at index `k`. */
  predicate OccursAt(s: string, pat: string, k: int) {
    0 <= k && k + |pat| <= |s| && s[k..k + |pat|] == pat
  }

  /** `pat` is written in `s` from index `k` on, character by character. */
  ghost predicate Placed(s: string, pat: string, k: int) {
    0 <= k && k + |pat| <= |s| && forall i :: 0 <= i < |pat| ==> s[k + i] == pat[i]
  }

  /** `pat` occurs nowhere in `s`. */
  ghost predicate NoOcc(s: string, pat: string) {
    forall k :: !OccursAt(s, pat, k)
  }

  // ---------------------------------------------------------------------------
  // Searching

  /** Leftmost occurrence of `pat` in `s` at or after `i` (`str.find(pat, i)`). */
  function FindFrom(s: string, pat: string, i: nat): (r: Option<nat>)
    decreases |s| - i
    ensures r.Some? ==> i <= r.value && OccursAt(s, pat, r.value)
    ensures r.Some? ==> forall k :: i <= k < r.value ==> !OccursAt(s, pat, k)
    ensures r.None? ==> forall k :: i <= k ==> !OccursAt(s, pat, k)
  {
    if i + |pat| > |s| then None
    else if s[i..i + |pat|] == pat then Some(i)
    else FindFrom(s, pat, i + 1)
  }

  /** Python's `pat in s`. */
  predicate Contains(s: string, pat: string) {
    FindFrom(s, pat, 0).Some?
  }

  lemma ContainsIff(s: string, pat: string)
    ensures Contains(s, pat) <==> exists k :: OccursAt(s, pat, k)
  {
    if exists k :: OccursAt(s, pat, k) {
      var k :| OccursAt(s, pat, k);
      assert 0 <= k;
    }
  }

  /** Leftmost index of the character `ch` in `s` at or after `i`. */
  function FindChar(s: string, ch: char, i: nat): (r: Option<nat>)
    decreases |s| - i
    ensures r.Some? ==> i <= r.value < |s| && s[r.value] == ch
    ensures r.Some? ==> forall k :: i <= k < r.value ==> s[k] != ch
    ensures r.None? ==> forall k :: i <= k < |s| ==> s[k] != ch
  {
    if i >= |s| then None
    else if s[i] == ch then Some(i)
    else FindChar(s, ch, i + 1)
  }

  /** End of the maximal run of whitespace in `s` starting at `i`. */
  function SpaceRunEnd(s: string, i: nat): (r: nat)
    requires i <= |s|
    decreases |s| - i
    ensures i <= r <= |s|
    ensures r == |s| || !IsSpace(s[r])
  {
    if i < |s| && IsSpace(s[i]) then SpaceRunEnd(s, i + 1) else i
  }

  /** The run is whitespace. */
  lemma {:induction false} SpaceRunSpaces(s: string, i: nat)
    requires i <= |s|
    ensures forall k :: i <= k < SpaceRunEnd(s, i) ==> IsSpace(s[k])
    decreases |s| - i
  {
    if i < |s| && IsSpace(s[i]) {
      SpaceRunSpaces(s, i + 1);
    }
  }

  /** End of the maximal run of `\w` characters in `s` starting at `i`. */
  function WordRunEnd(s: string, i: nat): (r: nat)
    requires i <= |s|
    decreases |s| - i
    ensures i <= r <= |s|
    ensures r == |s| || !IsWordChar(s[r])
  {
    if i < |s| && IsWordChar(s[i]) then WordRunEnd(s, i + 1) else i
  }

  /** The run consists of word characters. */
  lemma {:induction false} WordRunWords(s: string, i: nat)
    requires i <= |s|
    ensures forall k :: i <= k < WordRunEnd(s, i) ==> IsWordChar(s[k])
    decreases |s| - i
  {
    if i < |s| && IsWordChar(s[i]) {
      WordRunWords(s, i + 1);
    }
  }

  /** A maximal run is determined by its two ends. */
  lemma WordRunEndIs(s: string, i: nat, j: nat)
    requires i <= j <= |s|
    requires forall k :: i <= k < j ==> IsWordChar(s[k])
    requires j == |s| || !IsWordChar(s[j])
    ensures WordRunEnd(s, i) == j
    decreases j - i
  {
    if i < j {
      WordRunEndIs(s, i + 1, j);
    }
  }

  // ---------------------------------------------------------------------------
  // Occurrences in concatenations

  /** Concatenation regrouped. */
  lemma AppendAssoc(a: string, b: string, c: string)
    ensures a + b + c == a + (b + c)
  {
  }

  lemma AppendEmpty(a: string)
    ensures a + "" == a
  {
  }

  /** `pat` occurs where it was appended. */
  lemma OccursAtEnd(u: string, pat: string)
    ensures OccursAt(u + pat, pat, |u|)
  {
    assert (u + pat)[|u|..|u| + |pat|] == pat;
  }

  /** Appending text keeps an occurrence. */
  lemma OccursAtExtend(u: string, v: string, pat: string, k: int)
    requires OccursAt(u, pat, k)
    ensures OccursAt(u + v, pat, k)
  {
    assert (u + v)[k..k + |pat|] == u[k..k + |pat|];
  }

  /** A string occurs at the start of any extension of it. */
  lemma OccursAtStart(u: string, v: string)
    ensures OccursAt(u + v, u, 0)
  {
    assert (u + v)[0..|u|] == u;
  }

  /** An occurrence of `u + v` is an occurrence of `u` followed by one of `v`. */
  lemma OccursAtSplit(c: string, u: string, v: string, p: int)
    requires OccursAt(c, u + v, p)
    ensures OccursAt(c, u, p) && OccursAt(c, v, p + |u|)
  {
    assert c[p..p + |u|] == c[p..p + |u| + |v|][..|u|];
    assert c[p + |u|..p + |u| + |v|] == c[p..p + |u| + |v|][|u|..];
  }

  /** A placed concatenation is its operands placed one after the other. */
  lemma PlacedSplit(c: string, u: string, v: string, p: int)
    requires Placed(c, u + v, p)
    ensures Placed(c, u, p) && Placed(c, v, p + |u|)
  {
    forall i | 0 <= i < |u| ensures c[p + i] == u[i] {
      assert (u + v)[i] == u[i];
    }
    forall i | 0 <= i < |v| ensures c[p + |u| + i] == v[i] {
      assert (u + v)[|u| + i] == v[i];
    }
  }

  /** A string is placed at the start of any extension of it. */
  lemma PlacedStart(u: string, v: string)
    ensures Placed(u + v, u, 0)
  {
    forall i | 0 <= i < |u| ensures (u + v)[0 + i] == u[i] {
    }
  }

  /** A placed string is the slice it covers. */
  lemma PlacedSlice(c: string, u: string, p: int)
    requires Placed(c, u, p)
    ensures c[p..p + |u|] == u
  {
    forall i | 0 <= i < |u| ensures c[p..p + |u|][i] == u[i] {
      assert c[p + i] == u[i];
    }
  }

  /** A slice inside the left operand of a concatenation. */
  lemma SliceLeft(u: string, v: string, i: nat, j: nat)
    requires i <= j <= |u|
    ensures (u + v)[i..j] == u[i..j]
  {
  }

  /** A slice of a slice is a slice. */
  lemma SliceOfSlice(c: string, a: nat, b: nat, i: nat, j: nat)
    requires a <= b <= |c| && i <= j <= b - a
    ensures c[a..b][i..j] == c[a + i..a + j]
  {
    assert forall k :: 0 <= k < j - i ==> c[a..b][i..j][k] == c[a + i + k];
  }

  /** The right operand of a concatenation. */
  lemma SliceRight(u: string, v: string)
    ensures (u + v)[|u|..] == v
  {
  }

  /** An occurrence of `pat` in `x + t + y` that starts inside `t` lies inside `t`
      unless it runs over the last character of `t`. */
  lemma NoOccStartingIn(x: string, t: string, y: string, pat: string, k: int)
    requires NoOcc(t, pat)
    requires |t| > 0 && t[|t| - 1] !in pat
    requires |x| <= k < |x| + |t|
    ensures !OccursAt(x + t + y, pat, k)
  {
    var c := x + t + y;
    if k + |pat| <= |x| + |t| {
      assert c[k..k + |pat|] == t[k - |x|..k - |x| + |pat|];
      assert !OccursAt(t, pat, k - |x|);
    } else if k + |pat| <= |c| {
      assert c[k..k + |pat|][|x| + |t| - 1 - k] == t[|t| - 1];
    }
  }

  /** No occurrence of `pat` starts inside a `t` that lacks `pat`'s first character. */
  lemma NoOccStartingInFirst(x: string, t: string, y: string, pat: string, k: int)
    requires |pat| > 0 && pat[0] !in t
    requires |x| <= k < |x| + |t|
    ensures !OccursAt(x + t + y, pat, k)
  {
    var c := x + t + y;
    assert c[k] == t[k - |x|];
    if k + |pat| <= |c| {
      assert c[k..k + |pat|][0] == c[k];
    }
  }

  /** Gluing two strings without `pat` does not create `pat` when one side of the seam
      is a character outside `pat`. */
  lemma NoOccConcat(a: string, b: string, pat: string)
    requires NoOcc(a, pat) && NoOcc(b, pat)
    requires a == [] || b == [] || a[|a| - 1] !in pat || b[0] !in pat
    ensures NoOcc(a + b, pat)
  {
    var c := a + b;
    forall k ensures !OccursAt(c, pat, k) {
      if k < 0 || k + |pat| > |c| {
      } else if k + |pat| <= |a| {
        assert c[k..k + |pat|] == a[k..k + |pat|];
        assert !OccursAt(a, pat, k);
      } else if k >= |a| {
        assert c[k..k + |pat|] == b[k - |a|..k - |a| + |pat|];
        assert !OccursAt(b, pat, k - |a|);
      } else {
        assert c[k..k + |pat|][|a| - 1 - k] == a[|a| - 1];
        assert c[k..k + |pat|][|a| - k] == b[0];
      }
    }
  }

  /** A string without `pat`'s first character does not contain `pat`. */
  lemma NoOccWithoutFirst(s: string, pat: string)
    requires |pat| > 0 && pat[0] !in s
    ensures NoOcc(s, pat)
  {
    forall k ensures !OccursAt(s, pat, k) {
      if 0 <= k && k + |pat| <= |s| {
        assert s[k..k + |pat|][0] == s[k];
      }
    }
  }

  // ---------------------------------------------------------------------------
  // strip()

  /** Start of the trailing whitespace of `s[..j]`. */
  function TrailStart(s: string, j: nat): (r: nat)
    requires j <= |s|
    ensures r <= j
    ensures r == 0 || !IsSpace(s[r - 1])
  {
    if j > 0 && IsSpace(s[j - 1]) then TrailStart(s, j - 1) else j
  }

  /** The trail is whitespace. */
  lemma {:induction false} TrailSpaces(s: string, j: nat)
    requires j <= |s|
    ensures forall k :: TrailStart(s, j) <= k < j ==> IsSpace(s[k])
  {
    if j > 0 && IsSpace(s[j - 1]) {
      TrailSpaces(s, j - 1);
    }
  }

  /** `s.lstrip()` */
  function LStrip(s: string): (r: string)
  {
    s[SpaceRunEnd(s, 0)..]
  }

  /** `s.rstrip()` */
  function RStrip(s: string): (r: string)
  {
    s[..TrailStart(s, |s|)]
  }

  /** `s.strip()` */
  function Strip(s: string): (r: string)
    ensures |r| <= |s|
    ensures IsTrimmed(r)
  {
    RStrip(LStrip(s))
  }

  lemma SpaceRunEndIs(s: string, i: nat, j: nat)
    requires i <= j <= |s|
    requires forall k :: i <= k < j ==> IsSpace(s[k])
    requires j == |s| || !IsSpace(s[j])
    ensures SpaceRunEnd(s, i) == j
    decreases j - i
  {
    if i < j {
      SpaceRunEndIs(s, i + 1, j);
    }
  }

  lemma TrailStartIs(s: string, i: nat, j: nat)
    requires i <= j <= |s|
    requires forall k :: i <= k < j ==> IsSpace(s[k])
    requires i == 0 || !IsSpace(s[i - 1])
    ensures TrailStart(s, j) == i
    decreases j - i
  {
    if i < j {
      TrailStartIs(s, i, j - 1);
    }
  }

  /** `strip` removes exactly the surrounding whitespace: it is characterised by the
      decomposition `w1 + t + w2`. */
  lemma {:induction false} StripIs(w1: string, t: string, w2: string)
    requires AllSpace(w1) && AllSpace(w2)
    requires IsTrimmed(t)
    ensures Strip(w1 + t + w2) == t
  {
    var c := w1 + t + w2;
    if t == [] {
      SpaceRunEndIs(c, 0, |c|);
      assert LStrip(c) == [];
    } else {
      assert c[|w1|] == t[0];
      SpaceRunEndIs(c, 0, |w1|);
      var l := c[|w1|..];
      assert l == t + w2;
      assert l[|t| - 1] == t[|t| - 1];
      TrailStartIs(l, |t|, |l|);
      assert l[..|t|] == t;
    }
  }

  /** `strip` leaves a trimmed string alone. */
  lemma StripTrimmed(t: string)
    requires IsTrimmed(t)
    ensures Strip(t) == t
  {
    StripIs([], t, []);
    assert [] + t + [] == t;
  }

  /** Every string is its stripped text framed by whitespace. */
  lemma StripFrame(s: string) returns (w1: string, w2: string)
    ensures AllSpace(w1) && AllSpace(w2)
    ensures s == w1 + Strip(s) + w2
  {
    var i := SpaceRunEnd(s, 0);
    var l := LStrip(s);
    var j := TrailStart(l, |l|);
    SpaceRunSpaces(s, 0);
    SpacesSlice(s, 0, i);
    TrailSpaces(l, |l|);
    SpacesSlice(l, j, |l|);
    w1 := s[0..i];
    w2 := l[j..|l|];
    assert l == l[..j] + w2;
    assert s == w1 + l;
  }

  /** A stretch of whitespace, cut out. */
  lemma SpacesSlice(s: string, i: nat, j: nat)
    requires i <= j <= |s|
    requires forall k :: i <= k < j ==> IsSpace(s[k])
    ensures AllSpace(s[i..j])
  {
    forall k | 0 <= k < j - i ensures IsSpace(s[i..j][k]) {
      assert s[i..j][k] == s[i + k];
    }
  }

  /** `strip` is idempotent. */
  lemma StripIdempotent(s: string)
    ensures Strip(Strip(s)) == Strip(s)
  {
    StripIs([], Strip(s), []);
    assert [] + Strip(s) + [] == Strip(s);
  }

  /** Whitespace added on either side does not change `strip`. */
  lemma StripPadded(w1: string, s: string, w2: string)
    requires AllSpace(w1) && AllSpace(w2)
    ensures Strip(w1 + s + w2) == Strip(s)
  {
    var v1, v2 := StripFrame(s);
    assert w1 + s + w2 == (w1 + v1) + Strip(s) + (v2 + w2);
    assert AllSpace(w1 + v1);
    assert AllSpace(v2 + w2);
    StripIs(w1 + v1, Strip(s), v2 + w2);
  }

  // ---------------------------------------------------------------------------
  // split() and join()

  /** `s.split(sep)` for a one-character separator: always at least one part. */
  function Split(s: string, sep: char): (r: seq<string>)
    decreases |s|
    ensures |r| >= 1
    ensures forall i :: 0 <= i < |r| ==> sep !in r[i]
  {
    match FindChar(s, sep, 0)
    case None =>
      assert forall k :: 0 <= k < |s| ==> s[k] != sep;
      [s]
    case Some(i) =>
      assert forall k :: 0 <= k < i ==> s[..i][k] != sep;
      [s[..i]] + Split(s[i + 1..], sep)
  }

  /** `sep.join(parts)` */
  function Join(parts: seq<string>, sep: string): string
  {
    if |parts| == 0 then ""
    else if |parts| == 1 then parts[0]
    else parts[0] + sep + Join(parts[1..], sep)
  }

  /** The lines, each followed by a newline. */
  function Listing(lines: seq<string>): (r: string)
  {
    if lines == [] then "" else lines[0] + "\n" + Listing(lines[1..])
  }

  /** The listing is the newline-join of the lines with an empty last part. */
  lemma {:induction false} ListingIsJoin(lines: seq<string>)
    ensures Listing(lines) == Join(lines + [""], "\n")
  {
    if lines != [] {
      ListingIsJoin(lines[1..]);
      assert (lines + [""])[1..] == lines[1..] + [""];
    }
  }

  /** Joining two non-empty lists: the separator also goes between them. */
  lemma {:induction false} JoinAppend(a: seq<string>, b: seq<string>, sep: string)
    requires |a| > 0 && |b| > 0
    ensures Join(a + b, sep) == Join(a, sep) + sep + Join(b, sep)
    decreases |a|
  {
    if |a| == 1 {
      assert (a + b)[1..] == b;
    } else {
      assert (a + b)[1..] == a[1..] + b;
      JoinAppend(a[1..], b, sep);
    }
  }

  /** `split` undoes `join` when no part contains the separator. */
  lemma {:induction false} SplitJoin(parts: seq<string>, sep: char)
    requires |parts| >= 1
    requires forall i :: 0 <= i < |parts| ==> sep !in parts[i]
    ensures Split(Join(parts, [sep]), sep) == parts
    decreases |parts|
  {
    if |parts| == 1 {
      SplitNone(parts[0], sep);
    } else {
      var p := parts[0];
      var rest := Join(parts[1..], [sep]);
      assert Join(parts, [sep]) == p + [sep] + rest;
      SplitCons(p, rest, sep);
      SplitJoin(parts[1..], sep);
      assert parts == [p] + parts[1..];
    }
  }

  /** A string without the separator splits into itself. */
  lemma SplitNone(p: string, sep: char)
    requires sep !in p
    ensures Split(p, sep) == [p]
  {
    match FindChar(p, sep, 0)
    case None =>
    case Some(i) =>
      assert false;
  }

  /** A part without the separator, the separator, and the rest: the part comes
      first and the rest is split on. */
  lemma SplitCons(p: string, rest: string, sep: char)
    requires sep !in p
    ensures Split(p + [sep] + rest, sep) == [p] + Split(rest, sep)
  {
    var s := p + [sep] + rest;
    assert s[|p|] == sep;
    forall k | 0 <= k < |p| ensures s[k] != sep {
      assert s[k] == p[k];
    }
    FindCharIs(s, sep, 0, |p|);
    assert s[..|p|] == p;
    assert s[|p| + 1..] == rest;
  }

  /** `join` undoes `split`. */
  lemma {:induction false} JoinSplit(s: string, sep: char)
    ensures Join(Split(s, sep), [sep]) == s
    decreases |s|
  {
    match FindChar(s, sep, 0)
    case None =>
    case Some(i) =>
      JoinSplit(s[i + 1..], sep);
      var rest := Split(s[i + 1..], sep);
      assert Split(s, sep) == [s[..i]] + rest;
      assert ([s[..i]] + rest)[1..] == rest;
      assert s == s[..i] + [sep] + s[i + 1..];
  }

  /** `FindChar` is determined by the first matching position. */
  lemma FindCharIs(s: string, ch: char, i: nat, j: nat)
    requires i <= j < |s| && s[j] == ch
    requires forall k :: i <= k < j ==> s[k] != ch
    ensures FindChar(s, ch, i) == Some(j)
    decreases j - i
  {
    if i < j {
      FindCharIs(s, ch, i + 1, j);
    }
  }

  /** `FindFrom` is determined by the first matching position. */
  lemma FindFromIs(s: string, pat: string, i: nat, j: nat)
    requires i <= j && OccursAt(s, pat, j)
    requires forall k :: i <= k < j ==> !OccursAt(s, pat, k)
    ensures FindFrom(s, pat, i) == Some(j)
    decreases j - i
  {
    if i < j {
      assert !OccursAt(s, pat, i);
      FindFromIs(s, pat, i + 1, j);
    }
  }
}
