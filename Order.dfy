/** The string order used by the program's sorts (JavaScript's `sort` on
    strings and on `localeCompare` of equal-length digit codes, Python's
    `sorted`), a stable insertion sort that models those sorts, and the
    lower-casing both languages apply before comparing names. */
module Order {

  /** Lexicographic order on strings, character by character. */
  predicate LexLe(a: string, b: string)
    decreases |a|
  {
    |a| == 0 || (|b| > 0 && (a[0] < b[0] || (a[0] == b[0] && LexLe(a[1..], b[1..]))))
  }

  predicate LexLt(a: string, b: string) {
    LexLe(a, b) && a != b
  }

  lemma {:induction false} LexLeReflexive(a: string)
    ensures LexLe(a, a)
    decreases |a|
  {
    if |a| > 0 {
      LexLeReflexive(a[1..]);
    }
  }

  lemma {:induction false} LexLeTotal(a: string, b: string)
    ensures LexLe(a, b) || LexLe(b, a)
    decreases |a|
  {
    if |a| > 0 && |b| > 0 && a[0] == b[0] {
      LexLeTotal(a[1..], b[1..]);
    }
  }

  lemma {:induction false} LexLeTransitive(a: string, b: string, c: string)
    requires LexLe(a, b) && LexLe(b, c)
    ensures LexLe(a, c)
    decreases |a|
  {
    if |a| > 0 && a[0] == b[0] && b[0] == c[0] {
      LexLeTransitive(a[1..], b[1..], c[1..]);
    }
  }

  lemma {:induction false} LexLeAntisymmetric(a: string, b: string)
    requires LexLe(a, b) && LexLe(b, a)
    ensures a == b
    decreases |a|
  {
    if |a| > 0 {
      LexLeAntisymmetric(a[1..], b[1..]);
      assert a == [a[0]] + a[1..] && b == [b[0]] + b[1..];
    }
  }

  /** Every pair of elements is in key order. */
  ghost predicate SortedBy<T>(s: seq<T>, key: T -> string) {
    forall i, j :: 0 <= i < j < |s| ==> LexLe(key(s[i]), key(s[j]))
  }

  lemma SliceSorted<T>(s: seq<T>, a: nat, b: nat, key: T -> string)
    requires SortedBy(s, key) && a <= b <= |s|
    ensures SortedBy(s[a..b], key)
  {
    var r := s[a..b];
    forall i, j | 0 <= i < j < |r| ensures LexLe(key(r[i]), key(r[j])) {
      assert r[i] == s[a + i] && r[j] == s[a + j];
    }
  }

  lemma PrependSorted<T>(y: T, s: seq<T>, key: T -> string)
    requires SortedBy(s, key)
    requires forall k :: 0 <= k < |s| ==> LexLe(key(y), key(s[k]))
    ensures SortedBy([y] + s, key)
  {
    var r := [y] + s;
    forall i, j | 0 <= i < j < |r| ensures LexLe(key(r[i]), key(r[j])) {
      if i > 0 {
        assert r[i] == s[i - 1] && r[j] == s[j - 1];
      }
    }
  }

  /** Every element of a permutation of s[1..] + [x] is above s[0], when s
      is sorted and x is above s[0]. */
  lemma HeadBelowAll<T>(x: T, s: seq<T>, rest: seq<T>, key: T -> string)
    requires s != [] && SortedBy(s, key) && LexLe(key(s[0]), key(x))
    requires multiset(rest) == multiset(s[1..]) + multiset{x}
    ensures forall k :: 0 <= k < |rest| ==> LexLe(key(s[0]), key(rest[k]))
  {
    forall k | 0 <= k < |rest| ensures LexLe(key(s[0]), key(rest[k])) {
      assert rest[k] in multiset(rest);
      if rest[k] != x {
        assert rest[k] in multiset(s[1..]);
        var m :| 0 <= m < |s[1..]| && s[1..][m] == rest[k];
        assert s[m + 1] == rest[k];
      }
    }
  }

  /** Inserts x in front of the first element whose key is not below it,
      so x goes before the elements with an equal key. */
  function InsertBy<T>(x: T, s: seq<T>, key: T -> string): (r: seq<T>)
    ensures multiset(r) == multiset(s) + multiset{x}
    ensures |r| == |s| + 1
  {
    if s == [] then [x]
    else if LexLe(key(x), key(s[0])) then [x] + s
    else
      assert s == [s[0]] + s[1..];
      [s[0]] + InsertBy(x, s[1..], key)
  }

  /** Inserting into a sorted sequence keeps it sorted. */
  lemma {:induction false} InsertBySorted<T>(x: T, s: seq<T>, key: T -> string)
    requires SortedBy(s, key)
    ensures SortedBy(InsertBy(x, s, key), key)
    decreases |s|
  {
    if s == [] {
    } else if LexLe(key(x), key(s[0])) {
      forall j | 0 < j < |s| ensures LexLe(key(x), key(s[j])) {
        LexLeTransitive(key(x), key(s[0]), key(s[j]));
      }
      PrependSorted(x, s, key);
    } else {
      var rest := InsertBy(x, s[1..], key);
      InsertBySorted(x, s[1..], key);
      LexLeTotal(key(x), key(s[0]));
      assert s == [s[0]] + s[1..];
      HeadBelowAll(x, s, rest, key);
      PrependSorted(s[0], rest, key);
    }
  }

  /** A stable sort of s by key: insertion sort from the back. */
  function SortBy<T>(s: seq<T>, key: T -> string): (r: seq<T>)
    ensures multiset(r) == multiset(s)
    ensures |r| == |s|
  {
    if s == [] then []
    else
      assert s == [s[0]] + s[1..];
      InsertBy(s[0], SortBy(s[1..], key), key)
  }

  /** The sort's result is in key order. */
  lemma {:induction false} SortBySorted<T>(s: seq<T>, key: T -> string)
    ensures SortedBy(SortBy(s, key), key)
    decreases |s|
  {
    if s != [] {
      SortBySorted(s[1..], key);
      InsertBySorted(s[0], SortBy(s[1..], key), key);
    }
  }

  /** Lower-casing of the ASCII letters, as JavaScript's `toLowerCase`
      and Python's `str.lower` do on them. */
  function LowerChar(c: char): char {
    if 'A' <= c <= 'Z' then (c as int + 32) as char else c
  }

  function Lower(q: string): (r: string)
    ensures |r| == |q|
  {
    seq(|q|, i requires 0 <= i < |q| => LowerChar(q[i]))
  }
}
