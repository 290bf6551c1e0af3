/**
  Python's `sorted()` on file names: string comparison is lexicographic on code
  points. Entries are (name, payload) pairs sorted by name.
 */
module Sorting {

  /** Python's `a <= b` on `str`. */
  predicate LexLe(a: string, b: string)
    decreases |a|
  {
    if a == [] then true
    else if b == [] then false
    else if a[0] != b[0] then a[0] < b[0]
    else LexLe(a[1..], b[1..])
  }

  lemma {:induction false} LexLeTotal(a: string, b: string)
    ensures LexLe(a, b) || LexLe(b, a)
    decreases |a|
  {
    if a != [] && b != [] && a[0] == b[0] {
      LexLeTotal(a[1..], b[1..]);
    }
  }

  lemma {:induction false} LexLeTrans(a: string, b: string, c: string)
    requires LexLe(a, b) && LexLe(b, c)
    ensures LexLe(a, c)
    decreases |a|
  {
    if a != [] && b != [] && c != [] && a[0] == b[0] == c[0] {
      LexLeTrans(a[1..], b[1..], c[1..]);
    }
  }

  /** The names of `s` are in non-decreasing order. */
  ghost predicate SortedByName<T>(s: seq<(string, T)>) {
    forall i, j :: 0 <= i < j < |s| ==> LexLe(s[i].0, s[j].0)
  }

  /** Insert `x` into a list sorted by name, before the first larger-or-equal name. */
  function InsertByName<T>(x: (string, T), s: seq<(string, T)>): (r: seq<(string, T)>)
    requires SortedByName(s)
    ensures SortedByName(r)
    ensures multiset(r) == multiset(s) + multiset{x}
  {
    if s == [] then [x]
    else if LexLe(x.0, s[0].0) then
      assert forall j :: 0 <= j < |s| ==> LexLe(x.0, s[j].0) by {
        forall j | 0 <= j < |s| ensures LexLe(x.0, s[j].0) {
          if j > 0 { LexLeTrans(x.0, s[0].0, s[j].0); }
        }
      }
      [x] + s
    else
      LexLeTotal(x.0, s[0].0);
      var rest := InsertByName(x, s[1..]);
      assert s == [s[0]] + s[1..];
      forall e | e in multiset(rest) ensures LexLe(s[0].0, e.0) {
        if e != x {
          assert e in multiset(s[1..]);
          var j :| 0 <= j < |s[1..]| && s[1..][j] == e;
          assert s[j + 1] == e;
        }
      }
      forall j | 0 <= j < |rest| ensures LexLe(s[0].0, rest[j].0) {
        assert rest[j] in multiset(rest);
      }
      [s[0]] + rest
  }

  /** `sorted(s)` by name: in order, and a permutation of `s`. */
  function SortByName<T>(s: seq<(string, T)>): (r: seq<(string, T)>)
    ensures SortedByName(r)
    ensures multiset(r) == multiset(s)
    ensures |r| == |s|
  {
    if s == [] then []
    else
      assert s == [s[0]] + s[1..];
      InsertByName(s[0], SortByName(s[1..]))
  }
}
