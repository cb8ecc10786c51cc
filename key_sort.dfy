/**
 * PHP `ksort` with the default SORT_REGULAR flag, for arrays whose keys are
 * non-numeric strings (package names): the entries are reordered so that keys
 * ascend in code-point order (which agrees with `strcmp` on the UTF-8 bytes),
 * and every entry is kept.
 */
module KeySort {
  import opened PhpArray

  /** Code-point string comparison: the first differing character decides, a proper prefix is smaller. */
  predicate Less(a: string, b: string) {
    if a == [] then b != []
    else if b == [] then false
    else if a[0] != b[0] then a[0] < b[0]
    else Less(a[1..], b[1..])
  }

  lemma {:induction false} LessIrreflexive(a: string)
    ensures !Less(a, a)
  {
    if a != [] { LessIrreflexive(a[1..]); }
  }

  lemma {:induction false} LessTransitive(a: string, b: string, c: string)
    requires Less(a, b) && Less(b, c)
    ensures Less(a, c)
  {
    if a != [] && b != [] && c != [] && a[0] == b[0] && b[0] == c[0] {
      LessTransitive(a[1..], b[1..], c[1..]);
    }
  }

  /** Distinct keys are always ordered one way or the other. */
  lemma {:induction false} LessTotal(a: string, b: string)
    requires a != b
    ensures Less(a, b) || Less(b, a)
  {
    if a != [] && b != [] && a[0] == b[0] {
      assert a == [a[0]] + a[1..] && b == [b[0]] + b[1..];
      LessTotal(a[1..], b[1..]);
    }
  }

  lemma {:induction false} LessAsymmetric(a: string, b: string)
    requires Less(a, b)
    ensures !Less(b, a)
  {
    if Less(b, a) {
      LessTransitive(a, b, a);
      LessIrreflexive(a);
    }
  }

  /** The keys strictly ascend: the state `ksort` leaves a PHP array in. */
  predicate KeysAscending(s: Entries) {
    forall i, j :: 0 <= i < j < |s| ==> Less(s[i].0, s[j].0)
  }

  lemma AscendingDistinct(s: Entries)
    requires KeysAscending(s)
    ensures DistinctKeys(s)
  {
    forall i, j | 0 <= i < j < |s| ensures s[i].0 != s[j].0 {
      LessIrreflexive(s[i].0);
    }
  }

  /** Inserts `e` before the first entry whose key is greater than its own. */
  function Insert(e: Entry, s: Entries): (r: Entries)
    ensures multiset(r) == multiset(s) + multiset{e}
    ensures KeySet(r) == KeySet(s) + {e.0}
  {
    if s == [] then [e]
    else
      KeySetCons(s);
      assert s == [s[0]] + s[1..];
      if Less(e.0, s[0].0) then
        KeySetCons([e] + s);
        assert ([e] + s)[1..] == s;
        [e] + s
      else
        var rest := Insert(e, s[1..]);
        KeySetCons([s[0]] + rest);
        assert ([s[0]] + rest)[1..] == rest;
        [s[0]] + rest
  }

  /** Every entry of `t` has a key above `k` when every entry of `s` does and `t` holds the same entries. */
  lemma KeysAbove(k: string, s: Entries, t: Entries)
    requires forall j :: 0 <= j < |s| ==> Less(k, s[j].0)
    requires multiset(t) == multiset(s)
    ensures forall j :: 0 <= j < |t| ==> Less(k, t[j].0)
  {
    forall j | 0 <= j < |t| ensures Less(k, t[j].0) {
      assert t[j] in multiset(s);
    }
  }

  /** Inserting an entry with a new key into a key-ascending array keeps it key-ascending. */
  lemma {:induction false} InsertAscending(e: Entry, s: Entries)
    requires KeysAscending(s) && e.0 !in KeySet(s)
    ensures KeysAscending(Insert(e, s))
  {
    if s != [] {
      KeySetCons(s);
      if Less(e.0, s[0].0) {
        forall j | 0 <= j < |s| ensures Less(e.0, s[j].0) {
          if j > 0 { LessTransitive(e.0, s[0].0, s[j].0); }
        }
      } else {
        LessTotal(e.0, s[0].0);
        var rest := Insert(e, s[1..]);
        InsertAscending(e, s[1..]);
        KeysAbove(s[0].0, s[1..] + [e], rest);
        forall j | 0 <= j < |rest| ensures Less(s[0].0, rest[j].0) {
        }
      }
    }
  }

  /** The result of `ksort` on a PHP array, computed by insertion. */
  function KSorted(s: Entries): (r: Entries)
    requires DistinctKeys(s)
    ensures KeysAscending(r)
    ensures multiset(r) == multiset(s)
    ensures KeySet(r) == KeySet(s)
  {
    if s == [] then []
    else
      KeySetCons(s);
      assert s[0].0 !in KeySet(s[1..]);
      assert s == [s[0]] + s[1..];
      InsertAscending(s[0], KSorted(s[1..]));
      Insert(s[0], KSorted(s[1..]))
  }

  /** Two key-ascending arrangements of the same entries start with the same entry. */
  lemma AscendingSameFirst(s: Entries, t: Entries)
    requires KeysAscending(s) && KeysAscending(t) && multiset(s) == multiset(t)
    requires s != []
    ensures t != [] && s[0] == t[0]
  {
    assert s[0] in multiset(t);
    var k :| 0 <= k < |t| && t[k] == s[0];
    assert t[0] in multiset(s);
    var m :| 0 <= m < |s| && s[m] == t[0];
    if k != 0 {
      if m != 0 {
        LessAsymmetric(s[0].0, s[m].0);
      } else {
        LessIrreflexive(t[0].0);
      }
      assert false;
    }
  }

  lemma MultisetTail(s: Entries)
    requires s != []
    ensures multiset(s[1..]) == multiset(s) - multiset{s[0]}
  {
    assert s == [s[0]] + s[1..];
  }

  /**
   * Sorting by key is deterministic: two key-ascending arrangements of the same
   * entries are the same sequence.
   */
  lemma {:induction false} AscendingPermutationUnique(s: Entries, t: Entries)
    requires KeysAscending(s) && KeysAscending(t) && multiset(s) == multiset(t)
    ensures s == t
  {
    if s == [] {
      assert |t| == |multiset(t)| == 0;
    } else {
      AscendingSameFirst(s, t);
      MultisetTail(s);
      MultisetTail(t);
      AscendingPermutationUnique(s[1..], t[1..]);
      assert s == [s[0]] + s[1..] && t == [t[0]] + t[1..];
    }
  }

  /** A key-ascending array is its own `ksort`. */
  lemma KSortedAscending(s: Entries)
    requires KeysAscending(s)
    ensures DistinctKeys(s) && KSorted(s) == s
  {
    AscendingDistinct(s);
    AscendingPermutationUnique(KSorted(s), s);
  }

  /**
   * In-place `ksort`: insertion sort by adjacent swaps, leaving the same entries
   * with ascending keys.
   */
  method KSort(a: array<Entry>)
    requires DistinctKeys(a[..])
    modifies a
    ensures KeysAscending(a[..])
    ensures multiset(a[..]) == multiset(old(a[..]))
    ensures a[..] == KSorted(old(a[..]))
  {
    var i := 0;
    while i < a.Length
      invariant 0 <= i <= a.Length
      invariant KeysAscending(a[..i])
      invariant DistinctKeys(a[..])
      invariant multiset(a[..]) == multiset(old(a[..]))
    {
      SinkLast(a, i);
      i := i + 1;
    }
    assert a[..a.Length] == a[..];
    AscendingPermutationUnique(a[..], KSorted(old(a[..])));
  }

  /**
   * One pass of the insertion sort: swaps `a[i]` down past every greater key,
   * so that the prefix `a[..i + 1]` is key-ascending.
   */
  method SinkLast(a: array<Entry>, i: int)
    requires 0 <= i < a.Length
    requires KeysAscending(a[..i]) && DistinctKeys(a[..])
    modifies a
    ensures KeysAscending(a[..i + 1]) && DistinctKeys(a[..])
    ensures multiset(a[..]) == multiset(old(a[..]))
    ensures multiset(a[..i + 1]) == multiset(old(a[..i + 1]))
    ensures a[i + 1..] == old(a[i + 1..])
  {
    var j := i;
    while j > 0 && Less(a[j].0, a[j - 1].0)
      invariant 0 <= j <= i
      invariant SinkInvariant(a[..], i, j)
      invariant DistinctKeys(a[..])
      invariant multiset(a[..]) == multiset(old(a[..]))
      invariant a[i + 1..] == old(a[i + 1..])
    {
      ghost var before := a[..];
      a[j - 1], a[j] := a[j], a[j - 1];
      assert a[..] == before[j - 1 := before[j]][j := before[j - 1]];
      SwapStep(before, i, j);
      j := j - 1;
    }
    SinkDone(a[..], i, j);
    assert a[..] == a[..i + 1] + a[i + 1..];
    assert multiset(a[..]) == multiset(a[..i + 1]) + multiset(a[i + 1..]);
    assert multiset(old(a[..])) == multiset(old(a[..i + 1])) + multiset(old(a[i + 1..])) by {
      assert old(a[..]) == old(a[..i + 1]) + old(a[i + 1..]);
    }
    MultisetCancel(multiset(a[..i + 1]), multiset(old(a[..i + 1])), multiset(a[i + 1..]));
  }

  lemma MultisetCancel(x: multiset<Entry>, y: multiset<Entry>, z: multiset<Entry>)
    requires x + z == y + z
    ensures x == y
  {
    forall e ensures x[e] == y[e] {
      assert (x + z)[e] == (y + z)[e];
    }
  }

  /**
   * The state of a pass that has moved the entry it sinks to index `j`: every
   * other pair up to `i` is in order and the moving entry is below everything
   * after it.
   */
  ghost predicate SinkInvariant(s: Entries, i: int, j: int)
    requires 0 <= j <= i < |s|
  {
    && (forall p, q :: 0 <= p < q <= i && p != j && q != j ==> Less(s[p].0, s[q].0))
    && (forall q :: j < q <= i ==> Less(s[j].0, s[q].0))
  }

  lemma SwapStep(s: Entries, i: int, j: int)
    requires 0 < j <= i < |s| && DistinctKeys(s)
    requires SinkInvariant(s, i, j) && Less(s[j].0, s[j - 1].0)
    ensures var t := s[j - 1 := s[j]][j := s[j - 1]];
      SinkInvariant(t, i, j - 1) && DistinctKeys(t) && multiset(t) == multiset(s)
  {
    SwapKeepsDistinct(s, j - 1, j);
  }

  lemma SinkDone(s: Entries, i: int, j: int)
    requires 0 <= j <= i < |s| && DistinctKeys(s)
    requires SinkInvariant(s, i, j) && (j > 0 ==> !Less(s[j].0, s[j - 1].0))
    ensures KeysAscending(s[..i + 1])
  {
    if j > 0 {
      LessTotal(s[j - 1].0, s[j].0);
      forall p | 0 <= p < j - 1 ensures Less(s[p].0, s[j].0) {
        LessTransitive(s[p].0, s[j - 1].0, s[j].0);
      }
    }
  }

  lemma SwapKeepsDistinct(s: Entries, i: int, j: int)
    requires DistinctKeys(s) && 0 <= i < j < |s|
    ensures DistinctKeys(s[i := s[j]][j := s[i]])
  {
    var t := s[i := s[j]][j := s[i]];
    forall p, q | 0 <= p < q < |t| ensures t[p].0 != t[q].0 {
      var p' := if p == i then j else if p == j then i else p;
      var q' := if q == i then j else if q == j then i else q;
      assert t[p] == s[p'] && t[q] == s[q'];
      if p' > q' { assert s[q'].0 != s[p'].0; }
    }
  }
}
