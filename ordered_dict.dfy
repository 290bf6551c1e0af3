/**
  A Python `dict` with string keys: a sequence of (key, value) pairs with distinct
  keys, kept in insertion order. Assigning to an existing key replaces its value
  in place; assigning to a new key appends it.
 */
module OrderedDict {
  import opened Wrappers

  type Dict<V> = seq<(string, V)>

  /** `list(d)`: the keys in iteration order. */
  function KeyList<V>(d: Dict<V>): (r: seq<string>)
    ensures |r| == |d|
    ensures forall i :: 0 <= i < |d| ==> r[i] == d[i].0
  {
    seq(|d|, i requires 0 <= i < |d| => d[i].0)
  }

  /** `k in d` is `k in list(d)`. */
  lemma HasKeyKeyList<V>(d: Dict<V>, k: string)
    ensures HasKey(d, k) <==> k in KeyList(d)
  {
    if HasKey(d, k) {
      var i :| 0 <= i < |d| && d[i].0 == k;
      assert KeyList(d)[i] == k;
    }
  }

  ghost predicate DistinctKeys<V>(d: Dict<V>) {
    forall i, j :: 0 <= i < j < |d| ==> d[i].0 != d[j].0
  }

  /** Python's `k in d`. */
  predicate HasKey<V>(d: Dict<V>, k: string) {
    exists i :: 0 <= i < |d| && d[i].0 == k
  }

  /** Position of `k` among the keys. */
  function IndexOf<V>(d: Dict<V>, k: string): (r: Option<nat>)
    ensures r.Some? ==> r.value < |d| && d[r.value].0 == k
    ensures r.Some? ==> forall i :: 0 <= i < r.value ==> d[i].0 != k
    ensures r.None? <==> !HasKey(d, k)
  {
    if d == [] then None
    else if d[0].0 == k then Some(0)
    else match IndexOf(d[1..], k)
      case None => None
      case Some(i) => Some(i + 1)
  }

  /** Python's `d[k]`. */
  function Get<V>(d: Dict<V>, k: string): V
    requires HasKey(d, k)
  {
    d[IndexOf(d, k).value].1
  }

  /** Python's `d[k] = v`. */
  function Put<V>(d: Dict<V>, k: string, v: V): (r: Dict<V>)
    requires DistinctKeys(d)
    ensures DistinctKeys(r)
    ensures |r| == if HasKey(d, k) then |d| else |d| + 1
    ensures forall i :: 0 <= i < |d| ==> r[i] == if d[i].0 == k then (k, v) else d[i]
    ensures !HasKey(d, k) ==> r[|d|] == (k, v)
  {
    match IndexOf(d, k)
    case Some(i) => d[i := (k, v)]
    case None => d + [(k, v)]
  }

  /** The dict built by assigning the pairs of `ps` one after the other. */
  function PutAll<V>(ps: seq<(string, V)>): (r: Dict<V>)
    ensures DistinctKeys(r)
  {
    if ps == [] then [] else Put(PutAll(ps[..|ps| - 1]), ps[|ps| - 1].0, ps[|ps| - 1].1)
  }

  /** One more assignment. */
  lemma PutAllStep<V>(ps: seq<(string, V)>, i: nat)
    requires i < |ps|
    ensures PutAll(ps[..i + 1]) == Put(PutAll(ps[..i]), ps[i].0, ps[i].1)
  {
    assert ps[..i + 1][..i] == ps[..i];
  }

  /** Every pair of `PutAll(ps)` is one of the pairs assigned. */
  lemma {:induction false} PutAllFrom<V>(ps: seq<(string, V)>, i: nat)
    requires i < |PutAll(ps)|
    ensures exists j :: 0 <= j < |ps| && PutAll(ps)[i] == ps[j]
  {
    var n := |ps| - 1;
    var front := ps[..n];
    var d := PutAll(front);
    if i < |d| && d[i].0 != ps[n].0 {
      PutAllFrom(front, i);
      var j :| 0 <= j < |front| && d[i] == front[j];
      assert ps[j] == front[j];
    } else {
      assert PutAll(ps)[i] == ps[n];
    }
  }

  /** Python's `if k not in d: d[k] = v`. */
  function PutIfAbsent<V>(d: Dict<V>, k: string, v: V): (r: Dict<V>)
    requires DistinctKeys(d)
    ensures DistinctKeys(r)
    ensures HasKey(d, k) ==> r == d
    ensures !HasKey(d, k) ==> r == d + [(k, v)]
  {
    if HasKey(d, k) then d else d + [(k, v)]
  }

  /** The keys of `ks` in order of first occurrence. */
  function Dedup(ks: seq<string>): seq<string>
  {
    if ks == [] then []
    else
      var d := Dedup(ks[..|ks| - 1]);
      if ks[|ks| - 1] in d then d else d + [ks[|ks| - 1]]
  }

  /** `Dedup` keeps exactly the keys that occur. */
  lemma {:induction false} DedupMembers(ks: seq<string>, k: string)
    ensures k in Dedup(ks) <==> k in ks
  {
    if ks != [] {
      DedupMembers(ks[..|ks| - 1], k);
      assert ks == ks[..|ks| - 1] + [ks[|ks| - 1]];
    }
  }

  /** The keys of `PutAll(ps)` are those assigned, in the order of their first assignment. */
  lemma {:induction false} PutAllKeyOrder<V>(ps: seq<(string, V)>)
    ensures KeyList(PutAll(ps)) == Dedup(KeyList(ps))
  {
    if ps != [] {
      var front := ps[..|ps| - 1];
      var (k, v) := ps[|ps| - 1];
      PutAllKeyOrder(front);
      var d := PutAll(front);
      assert KeyList(ps)[..|ps| - 1] == KeyList(front);
      DedupMembers(KeyList(front), k);
      if HasKey(d, k) {
        var i :| 0 <= i < |d| && d[i].0 == k;
        assert KeyList(d)[i] == k;
        assert KeyList(PutAll(ps)) == KeyList(d);
      } else {
        assert k !in KeyList(d);
        assert KeyList(PutAll(ps)) == KeyList(d) + [k];
      }
    }
  }

  /** A key is present in `PutAll(ps)` exactly when some pair assigns it. */
  lemma {:induction false} PutAllHasKey<V>(ps: seq<(string, V)>, k: string)
    ensures HasKey(PutAll(ps), k) <==> exists j :: 0 <= j < |ps| && ps[j].0 == k
  {
    PutAllKeyOrder(ps);
    DedupMembers(KeyList(ps), k);
    var d := PutAll(ps);
    if HasKey(d, k) {
      var i :| 0 <= i < |d| && d[i].0 == k;
      assert KeyList(d)[i] == k;
      var j :| 0 <= j < |ps| && KeyList(ps)[j] == k;
      assert ps[j].0 == k;
    }
    if exists j :: 0 <= j < |ps| && ps[j].0 == k {
      var j :| 0 <= j < |ps| && ps[j].0 == k;
      assert KeyList(ps)[j] == k;
      var i :| 0 <= i < |d| && KeyList(d)[i] == k;
      assert d[i].0 == k;
    }
  }

  /** Last assignment wins: the value stored for a key is the one of its last pair. */
  lemma {:induction false} PutAllLastWins<V>(ps: seq<(string, V)>, j: nat)
    requires j < |ps|
    requires forall j' :: j < j' < |ps| ==> ps[j'].0 != ps[j].0
    ensures HasKey(PutAll(ps), ps[j].0)
    ensures Get(PutAll(ps), ps[j].0) == ps[j].1
  {
    var front := ps[..|ps| - 1];
    var k := ps[j].0;
    var d := PutAll(front);
    if j == |ps| - 1 {
      var r := PutAll(ps);
      if HasKey(d, k) {
        var i := IndexOf(d, k).value;
        assert r[i] == (k, ps[j].1);
      } else {
        assert r[|d|] == (k, ps[j].1);
      }
      GetAt(r, k);
    } else {
      PutAllLastWins(front, j);
      var i := IndexOf(d, k).value;
      var r := PutAll(ps);
      assert r[i] == d[i];
      GetAt(r, k);
      GetAt(d, k);
    }
  }

  /** In a dict with distinct keys, `Get` reads the pair that holds the key. */
  lemma GetAt<V>(d: Dict<V>, k: string)
    requires DistinctKeys(d) && HasKey(d, k)
    ensures forall i :: 0 <= i < |d| && d[i].0 == k ==> Get(d, k) == d[i].1
  {
  }

  /** Assigning pairs with distinct keys builds exactly those pairs, in order. */
  lemma {:induction false} PutAllDistinct<V>(ps: seq<(string, V)>)
    requires DistinctKeys(ps)
    ensures PutAll(ps) == ps
  {
    if ps != [] {
      var front := ps[..|ps| - 1];
      assert DistinctKeys(front);
      PutAllDistinct(front);
      assert !HasKey(front, ps[|ps| - 1].0);
      assert PutAll(ps) == front + [ps[|ps| - 1]];
    }
  }
}
