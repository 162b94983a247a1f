/** Optional values, the lexicographic order on strings, and sequences sorted by a string key. */
module Ordering {

  datatype Option<+T> = None | Some(value: T)

  /** The code-point order on strings, which is also the order of packed store keys. */
  predicate StrLess(a: string, b: string) {
    b != [] && (a == [] || a[0] < b[0] || (a[0] == b[0] && StrLess(a[1..], b[1..])))
  }

  lemma {:induction false} StrLessTransitive(a: string, b: string, c: string)
    requires StrLess(a, b) && StrLess(b, c)
    ensures StrLess(a, c)
  {
    if a != [] && a[0] == b[0] == c[0] {
      StrLessTransitive(a[1..], b[1..], c[1..]);
    }
  }

  lemma {:induction false} StrLessTrichotomy(a: string, b: string)
    ensures (if StrLess(a, b) then 1 else 0) + (if StrLess(b, a) then 1 else 0) + (if a == b then 1 else 0) == 1
  {
    if a != [] && b != [] && a[0] == b[0] {
      StrLessTrichotomy(a[1..], b[1..]);
      assert a == [a[0]] + a[1..] && b == [b[0]] + b[1..];
    }
  }

  /** A common prefix does not change the order. */
  lemma {:induction false} StrLessPrefix(p: string, a: string, b: string)
    ensures StrLess(p + a, p + b) == StrLess(a, b)
  {
    if p == [] {
      assert p + a == a && p + b == b;
    } else {
      assert (p + a)[1..] == p[1..] + a && (p + b)[1..] == p[1..] + b;
      StrLessPrefix(p[1..], a, b);
    }
  }

  ghost predicate Ascending(s: seq<string>) {
    forall i, j :: 0 <= i < j < |s| ==> StrLess(s[i], s[j])
  }

  /** `sorted` on a list of distinct strings. */
  function Sort(s: seq<string>): (r: seq<string>)
    ensures multiset(r) == multiset(s)
  {
    if s == [] then []
    else
      assert s == [s[0]] + s[1..];
      Insert(s[0], Sort(s[1..]))
  }

  function Insert(x: string, s: seq<string>): (r: seq<string>)
    ensures multiset(r) == multiset{x} + multiset(s)
  {
    if s == [] || StrLess(x, s[0]) then [x] + s
    else
      assert s == [s[0]] + s[1..];
      [s[0]] + Insert(x, s[1..])
  }

  lemma {:induction false} InsertAscends(x: string, s: seq<string>)
    requires Ascending(s) && x !in s
    ensures Ascending(Insert(x, s))
  {
    if s == [] {
    } else {
      if StrLess(x, s[0]) {
        forall j | 0 <= j < |s| ensures StrLess(x, s[j]) {
          if j > 0 { StrLessTransitive(x, s[0], s[j]); }
        }
      } else {
        StrLessTrichotomy(x, s[0]);
        InsertAscends(x, s[1..]);
        var r := Insert(x, s[1..]);
        forall j | 0 <= j < |r| ensures StrLess(s[0], r[j]) {
          assert r[j] in multiset(r);
          assert r[j] in multiset{x} + multiset(s[1..]);
          assert r[j] == x || r[j] in s[1..];
        }
      }
    }
  }

  ghost predicate Distinct<T>(s: seq<T>) {
    forall i, j :: 0 <= i < j < |s| ==> s[i] != s[j]
  }

  lemma {:induction false} SortAscends(s: seq<string>)
    requires Distinct(s)
    ensures Ascending(Sort(s))
  {
    if s == [] {
    } else {
      SortAscends(s[1..]);
      assert s[0] !in s[1..];
      assert s[0] !in multiset(s[1..]);
      InsertAscends(s[0], Sort(s[1..]));
    }
  }

  /** Two lists with the same elements, both strictly ascending in the key, are the same list. */
  lemma {:induction false} SortedByKeyUnique<T>(key: T -> string, s: seq<T>, t: seq<T>)
    requires forall i, j :: 0 <= i < j < |s| ==> StrLess(key(s[i]), key(s[j]))
    requires forall i, j :: 0 <= i < j < |t| ==> StrLess(key(t[i]), key(t[j]))
    requires forall x :: x in s <==> x in t
    ensures s == t
  {
    assert t == [] || t[0] in t;
    if s == [] {
    } else {
      assert s[0] in t && t != [] && t[0] in s;
      var j :| 0 <= j < |t| && t[j] == s[0];
      var i :| 0 <= i < |s| && s[i] == t[0];
      StrLessTrichotomy(key(s[0]), key(t[0]));
      assert s[0] == t[0];
      forall x ensures x in s[1..] <==> x in t[1..] {
        if x in s[1..] {
          var k :| 0 < k < |s| && s[k] == x;
          StrLessTrichotomy(key(s[0]), key(x));
          assert x in t;
        }
        if x in t[1..] {
          var k :| 0 < k < |t| && t[k] == x;
          StrLessTrichotomy(key(t[0]), key(x));
          assert x in s;
        }
      }
      SortedByKeyUnique(key, s[1..], t[1..]);
      assert s == [s[0]] + s[1..] && t == [t[0]] + t[1..];
    }
  }
}
