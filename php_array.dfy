/**
 * An ordered PHP associative array whose keys and values are strings, as
 * `json_decode(..., true)` produces for a `dependencies` or `devDependencies`
 * object: a sequence of (key, value) entries in insertion order, no key twice.
 */
module PhpArray {

  datatype Option<T> = None | Some(value: T)

  type Entry = (string, string)
  type Entries = seq<Entry>

  /** No key occurs twice: the invariant of every PHP array. */
  predicate DistinctKeys(s: Entries) {
    forall i, j :: 0 <= i < j < |s| ==> s[i].0 != s[j].0
  }

  /** A PHP array with string keys and string values. */
  type Assoc = s: Entries | DistinctKeys(s) witness []

  /** The keys present in `s` (PHP `array_keys`, as a set). */
  function KeySet(s: Entries): set<string> {
    set i | 0 <= i < |s| :: s[i].0
  }

  lemma KeySetCons(s: Entries)
    requires s != []
    ensures KeySet(s) == {s[0].0} + KeySet(s[1..])
  {
    forall k | k in KeySet(s) ensures k in {s[0].0} + KeySet(s[1..]) {
      var i :| 0 <= i < |s| && s[i].0 == k;
      if i > 0 { assert s[1..][i - 1] == s[i]; }
    }
    forall k | k in KeySet(s[1..]) ensures k in KeySet(s) {
      var i :| 0 <= i < |s[1..]| && s[1..][i].0 == k;
      assert s[i + 1] == s[1..][i];
    }
  }

  lemma KeySetConcat(a: Entries, b: Entries)
    ensures KeySet(a + b) == KeySet(a) + KeySet(b)
  {
    forall k | k in KeySet(a + b) ensures k in KeySet(a) + KeySet(b) {
      var i :| 0 <= i < |a + b| && (a + b)[i].0 == k;
      if i >= |a| { assert (a + b)[i] == b[i - |a|]; }
    }
    forall k | k in KeySet(a) ensures k in KeySet(a + b) {
      var i :| 0 <= i < |a| && a[i].0 == k;
      assert (a + b)[i] == a[i];
    }
    forall k | k in KeySet(b) ensures k in KeySet(a + b) {
      var i :| 0 <= i < |b| && b[i].0 == k;
      assert (a + b)[|a| + i] == b[i];
    }
  }

  /** `$array[$k] ?? null`: the value stored under `k`, if any. */
  function Lookup(s: Entries, k: string): (r: Option<string>)
    ensures r.Some? <==> k in KeySet(s)
    ensures r.Some? ==> (k, r.value) in s
  {
    if s == [] then None
    else
      KeySetCons(s);
      if s[0].0 == k then Some(s[0].1) else Lookup(s[1..], k)
  }

  /** In a PHP array, an entry that is present is the one lookup finds. */
  lemma {:induction false} LookupEntry(s: Entries, k: string, v: string)
    requires DistinctKeys(s) && (k, v) in s
    ensures Lookup(s, k) == Some(v)
  {
    if s[0] != (k, v) {
      assert s[0].0 != k by {
        var i :| 0 <= i < |s| && s[i] == (k, v);
        assert i != 0;
      }
      assert (k, v) in s[1..] by {
        var i :| 0 <= i < |s| && s[i] == (k, v);
        assert s[1..][i - 1] == s[i];
      }
      LookupEntry(s[1..], k, v);
    }
  }

  /** Two PHP arrays holding the same entries (in any order) answer every lookup alike. */
  lemma LookupPermutation(s: Entries, t: Entries, k: string)
    requires DistinctKeys(s) && DistinctKeys(t) && multiset(s) == multiset(t)
    ensures Lookup(s, k) == Lookup(t, k)
  {
    var r := Lookup(s, k);
    if r.Some? {
      assert (k, r.value) in multiset(t);
      LookupEntry(t, k, r.value);
    } else {
      forall v ensures (k, v) !in t {
        assert (k, v) in t <==> (k, v) in multiset(s);
      }
    }
  }

  /** The lookup in a concatenation finds the left part's entry first. */
  lemma {:induction false} LookupConcat(a: Entries, b: Entries, k: string)
    ensures Lookup(a + b, k) == if k in KeySet(a) then Lookup(a, k) else Lookup(b, k)
  {
    if a != [] {
      assert (a + b)[0] == a[0] && (a + b)[1..] == a[1..] + b;
      KeySetCons(a);
      LookupConcat(a[1..], b, k);
    } else {
      assert a + b == b;
    }
  }

  /** The entries of `s` whose key is not in `ks`, in their original order. */
  function Without(s: Entries, ks: set<string>): (r: Entries)
    ensures KeySet(r) == KeySet(s) - ks
    ensures DistinctKeys(s) ==> DistinctKeys(r)
    ensures forall k :: k !in ks ==> Lookup(r, k) == Lookup(s, k)
  {
    if s == [] then []
    else
      KeySetCons(s);
      var rest := Without(s[1..], ks);
      if s[0].0 in ks then rest
      else
        KeySetCons([s[0]] + rest);
        assert ([s[0]] + rest)[1..] == rest;
        [s[0]] + rest
  }

  /** Two PHP arrays with disjoint key sets concatenate into a PHP array. */
  lemma DisjointConcat(a: Entries, b: Entries)
    requires DistinctKeys(a) && DistinctKeys(b) && KeySet(a) !! KeySet(b)
    ensures DistinctKeys(a + b)
  {
    forall i, j | 0 <= i < j < |a + b| ensures (a + b)[i].0 != (a + b)[j].0 {
      if i < |a| && j >= |a| {
        assert (a + b)[i].0 in KeySet(a);
        assert (a + b)[j] == b[j - |a|];
        assert (a + b)[j].0 in KeySet(b);
      } else if i >= |a| {
        assert (a + b)[i] == b[i - |a|] && (a + b)[j] == b[j - |a|];
      }
    }
  }

  /**
   * PHP array union `left + right`: every entry of `left`, in order, followed
   * by the entries of `right` whose key `left` does not have, in their order.
   */
  function Union(left: Assoc, right: Assoc): (r: Assoc)
    ensures KeySet(r) == KeySet(left) + KeySet(right)
    ensures |left| <= |r| && r[..|left|] == left
  {
    var rest := Without(right, KeySet(left));
    DisjointConcat(left, rest);
    KeySetConcat(left, rest);
    assert (left + rest)[..|left|] == left;
    left + rest
  }

  /** On a shared key the left operand of `+` wins; other keys keep their own value. */
  lemma LookupUnion(left: Assoc, right: Assoc, k: string)
    ensures Lookup(Union(left, right), k)
         == if k in KeySet(left) then Lookup(left, k) else Lookup(right, k)
  {
    LookupConcat(left, Without(right, KeySet(left)), k);
  }
}
