/**
 * The three query clauses the store's reads use, over a table held as a
 * sequence of rows in insertion order: WHERE (`Where`), the first row of a
 * WHERE with LIMIT 1 (`FirstIndex`), and ORDER BY a numeric key
 * (`SortByKey`). SQL leaves the order of rows with equal keys unspecified;
 * this model fixes it to insertion order, the order a primary-key scan yields.
 */
module Query {
  import opened Wrappers

  /** The position of the first row satisfying `p`, if any. */
  function FirstIndex<T>(s: seq<T>, p: T -> bool): (r: Option<nat>)
    ensures r.None? <==> forall i :: 0 <= i < |s| ==> !p(s[i])
    ensures r.Some? ==> r.value < |s| && p(s[r.value])
    ensures r.Some? ==> forall j :: 0 <= j < r.value ==> !p(s[j])
  {
    if s == [] then None
    else if p(s[0]) then Some(0)
    else match FirstIndex(s[1..], p)
      case None => None
      case Some(i) => Some(i + 1)
  }

  /** Appending rows never changes which row is found first, once one is. */
  lemma {:induction false} FirstIndexAppendFound<T>(s: seq<T>, t: seq<T>, p: T -> bool)
    requires FirstIndex(s, p).Some?
    ensures FirstIndex(s + t, p) == FirstIndex(s, p)
  {
    assert (s + t)[0] == s[0];
    if !p(s[0]) {
      assert (s + t)[1..] == s[1..] + t;
      FirstIndexAppendFound(s[1..], t, p);
    }
  }

  /** When no row of `s` matches, the first match of `s + t` is the first match of `t`, shifted. */
  lemma {:induction false} FirstIndexAppendMissing<T>(s: seq<T>, t: seq<T>, p: T -> bool)
    requires FirstIndex(s, p).None?
    ensures FirstIndex(s + t, p) == (match FirstIndex(t, p) case None => None case Some(i) => Some(|s| + i))
  {
    if s == [] {
      assert s + t == t;
    } else {
      assert (s + t)[0] == s[0];
      assert (s + t)[1..] == s[1..] + t;
      FirstIndexAppendMissing(s[1..], t, p);
    }
  }

  /** The first row satisfying `p`, if any: a WHERE with LIMIT 1 and no ORDER BY. */
  function First<T>(s: seq<T>, p: T -> bool): (r: Option<T>)
    ensures r.None? <==> forall i :: 0 <= i < |s| ==> !p(s[i])
    ensures r.Some? ==> p(r.value)
    ensures r.Some? ==> exists i :: 0 <= i < |s| && s[i] == r.value && forall j :: 0 <= j < i ==> !p(s[j])
  {
    match FirstIndex(s, p)
    case None => None
    case Some(i) => Some(s[i])
  }

  /** Appending rows never changes the first match once there is one, and otherwise finds the first appended match. */
  lemma FirstAppend<T>(s: seq<T>, t: seq<T>, p: T -> bool)
    ensures First(s, p).Some? ==> First(s + t, p) == First(s, p)
    ensures First(s, p).None? ==> First(s + t, p) == First(t, p)
  {
    if FirstIndex(s, p).Some? {
      FirstIndexAppendFound(s, t, p);
    } else {
      FirstIndexAppendMissing(s, t, p);
    }
  }

  /** The rows satisfying `p`, in table order. */
  function Where<T>(s: seq<T>, p: T -> bool): (r: seq<T>)
    ensures |r| <= |s|
    ensures forall i :: 0 <= i < |r| ==> p(r[i])
    ensures forall i :: 0 <= i < |r| ==> r[i] in s
  {
    if s == [] then []
    else if p(s[0]) then [s[0]] + Where(s[1..], p)
    else Where(s[1..], p)
  }

  /** No row satisfying `p` is left out. */
  lemma {:induction false} WhereComplete<T>(s: seq<T>, p: T -> bool)
    ensures forall i :: 0 <= i < |s| && p(s[i]) ==> s[i] in Where(s, p)
  {
    if s != [] {
      WhereComplete(s[1..], p);
      forall i | 0 <= i < |s| && p(s[i]) ensures s[i] in Where(s, p) {
        if i > 0 {
          assert s[i] == s[1..][i - 1];
        }
      }
    }
  }

  lemma {:induction false} WhereAppend<T>(s: seq<T>, t: seq<T>, p: T -> bool)
    ensures Where(s + t, p) == Where(s, p) + Where(t, p)
  {
    if s == [] {
      assert s + t == t;
    } else {
      assert (s + t)[1..] == s[1..] + t;
      WhereAppend(s[1..], t, p);
    }
  }

  /** Every key is at most the key of any later element. */
  ghost predicate SortedBy<T>(s: seq<T>, key: T -> int) {
    forall i, j :: 0 <= i < j < |s| ==> key(s[i]) <= key(s[j])
  }

  /**
   * `x` placed into `s` just before the first element with a strictly larger
   * key, so that it comes after every element with an equal key.
   */
  function InsertByKey<T>(s: seq<T>, x: T, key: T -> int): (r: seq<T>)
    ensures |r| == |s| + 1
    ensures multiset(r) == multiset(s) + multiset{x}
  {
    if s == [] then [x]
    else if key(x) < key(s[0]) then [x] + s
    else
      assert s == [s[0]] + s[1..];
      [s[0]] + InsertByKey(s[1..], x, key)
  }

  /** Every key in `s` is at least `k`. */
  ghost predicate KeysAtLeast<T>(s: seq<T>, key: T -> int, k: int) {
    forall i :: 0 <= i < |s| ==> k <= key(s[i])
  }

  lemma ConsSorted<T>(a: T, s: seq<T>, key: T -> int)
    requires SortedBy(s, key) && KeysAtLeast(s, key, key(a))
    ensures SortedBy([a] + s, key)
  {
  }

  lemma {:induction false} InsertKeysAtLeast<T>(s: seq<T>, x: T, key: T -> int, k: int)
    requires KeysAtLeast(s, key, k) && k <= key(x)
    ensures KeysAtLeast(InsertByKey(s, x, key), key, k)
  {
    if s != [] && key(s[0]) <= key(x) {
      InsertKeysAtLeast(s[1..], x, key, k);
    }
  }

  lemma {:induction false} InsertSorted<T>(s: seq<T>, x: T, key: T -> int)
    requires SortedBy(s, key)
    ensures SortedBy(InsertByKey(s, x, key), key)
  {
    if s == [] {
    } else if key(x) < key(s[0]) {
      ConsSorted(x, s, key);
    } else {
      InsertSorted(s[1..], x, key);
      InsertKeysAtLeast(s[1..], x, key, key(s[0]));
      ConsSorted(s[0], InsertByKey(s[1..], x, key), key);
    }
  }

  /** A stable sort of `s` by ascending `key`: rows with equal keys keep their order. */
  function SortByKey<T>(s: seq<T>, key: T -> int): (r: seq<T>)
    ensures |r| == |s|
    ensures multiset(r) == multiset(s)
    ensures SortedBy(r, key)
  {
    if s == [] then []
    else
      assert s == s[..|s| - 1] + [s[|s| - 1]];
      var sorted := SortByKey(s[..|s| - 1], key);
      InsertSorted(sorted, s[|s| - 1], key);
      InsertByKey(sorted, s[|s| - 1], key)
  }

  lemma {:induction false} InsertAfterAll<T>(s: seq<T>, x: T, key: T -> int)
    requires forall i :: 0 <= i < |s| ==> key(s[i]) <= key(x)
    ensures InsertByKey(s, x, key) == s + [x]
  {
    if s != [] {
      InsertAfterAll(s[1..], x, key);
    }
  }

  /** A row whose key is at least every other row's lands last after sorting. */
  lemma SortAppendLast<T>(s: seq<T>, x: T, key: T -> int)
    requires forall i :: 0 <= i < |s| ==> key(s[i]) <= key(x)
    ensures SortByKey(s + [x], key) == SortByKey(s, key) + [x]
  {
    assert (s + [x])[..|s|] == s;
    var sorted := SortByKey(s, key);
    forall k | 0 <= k < |sorted| ensures key(sorted[k]) <= key(x) {
      assert sorted[k] in multiset(s);
    }
    InsertAfterAll(sorted, x, key);
  }

  lemma WhereKeysBounded<T>(s: seq<T>, p: T -> bool, key: T -> int, k: int)
    requires forall i :: 0 <= i < |s| ==> key(s[i]) <= k
    ensures forall i :: 0 <= i < |Where(s, p)| ==> key(Where(s, p)[i]) <= k
  {
  }

  /**
   * A matching row appended after rows whose keys are no larger comes last
   * in the sorted selection.
   */
  lemma SortedWhereAppend<T>(s: seq<T>, x: T, p: T -> bool, key: T -> int)
    requires forall i :: 0 <= i < |s| ==> key(s[i]) <= key(x)
    requires p(x)
    ensures SortByKey(Where(s + [x], p), key) == SortByKey(Where(s, p), key) + [x]
  {
    WhereAppend(s, [x], p);
    assert Where([x], p) == [x];
    WhereKeysBounded(s, p, key, key(x));
    SortAppendLast(Where(s, p), x, key);
  }

  /** A prefix of a sorted sequence is sorted, and holds no row the sequence does not. */
  lemma SortedPrefix<T>(s: seq<T>, n: nat, key: T -> int)
    requires SortedBy(s, key) && n <= |s|
    ensures SortedBy(s[..n], key)
    ensures multiset(s[..n]) <= multiset(s)
  {
    assert s == s[..n] + s[n..];
  }
}
