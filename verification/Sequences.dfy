/** Filtering lists. */
module Sequences {

  /** The elements that satisfy `p`, in order. */
  function Keep<T>(s: seq<T>, p: T -> bool): seq<T> {
    if s == [] then []
    else
      var last := s[|s| - 1];
      var front := Keep(s[..|s| - 1], p);
      if p(last) then front + [last] else front
  }

  lemma {:induction false} KeepMembers<T(!new)>(s: seq<T>, p: T -> bool)
    ensures forall n :: n in Keep(s, p) <==> n in s && p(n)
  {
    if s == [] {
    } else {
      KeepMembers(s[..|s| - 1], p);
      assert s == s[..|s| - 1] + [s[|s| - 1]];
    }
  }

  /** How often each element is kept: always or never. */
  lemma {:induction false} KeepCounts<T(!new)>(s: seq<T>, p: T -> bool)
    ensures forall n :: multiset(Keep(s, p))[n] == if p(n) then multiset(s)[n] else 0
  {
    if s == [] {
    } else {
      var front, last := s[..|s| - 1], s[|s| - 1];
      KeepCounts(front, p);
      assert s == front + [last];
    }
  }

  /** Any two positions of `part` come from two positions of `whole` in the same order. */
  ghost predicate InOrder<T>(part: seq<T>, whole: seq<T>) {
    forall i, j :: 0 <= i < j < |part| ==> Precedes(whole, part[i], part[j])
  }

  ghost predicate Precedes<T>(s: seq<T>, m: T, n: T) {
    exists k, l :: 0 <= k < l < |s| && s[k] == m && s[l] == n
  }

  lemma PrecedesInLonger<T>(s: seq<T>, last: T, m: T, n: T)
    requires Precedes(s, m, n)
    ensures Precedes(s + [last], m, n)
  {
    var k, l :| 0 <= k < l < |s| && s[k] == m && s[l] == n;
    assert (s + [last])[k] == m && (s + [last])[l] == n;
  }

  lemma PrecedesLast<T>(s: seq<T>, last: T, m: T)
    requires m in s
    ensures Precedes(s + [last], m, last)
  {
    var k :| 0 <= k < |s| && s[k] == m;
    assert (s + [last])[k] == m && (s + [last])[|s|] == last;
  }

  lemma {:induction false} KeepInOrder<T(!new)>(s: seq<T>, p: T -> bool)
    ensures InOrder(Keep(s, p), s)
  {
    if s == [] {
    } else {
      var front, last := s[..|s| - 1], s[|s| - 1];
      var kept, all := Keep(front, p), Keep(s, p);
      assert s == front + [last];
      KeepInOrder(front, p);
      KeepMembers(front, p);
      forall i, j | 0 <= i < j < |all| ensures Precedes(s, all[i], all[j]) {
        if j < |kept| {
          PrecedesInLonger(front, last, kept[i], kept[j]);
        } else {
          assert kept[i] in kept;
          PrecedesLast(front, last, kept[i]);
        }
      }
    }
  }

  lemma KeepAppend<T>(a: seq<T>, n: T, q: T -> bool)
    ensures Keep(a + [n], q) == if q(n) then Keep(a, q) + [n] else Keep(a, q)
  {
    assert (a + [n])[..|a|] == a;
  }

  lemma {:induction false} KeepEverything<T>(s: seq<T>, p: T -> bool)
    requires forall n :: n in s ==> p(n)
    ensures Keep(s, p) == s
  {
    if s == [] {
    } else {
      var front, last := s[..|s| - 1], s[|s| - 1];
      assert s == front + [last] && last in s;
      KeepEverything(front, p);
    }
  }

  lemma {:induction false} KeepTwice<T>(s: seq<T>, p: T -> bool, q: T -> bool, r: T -> bool)
    requires forall n :: n in s ==> r(n) == (p(n) && q(n))
    ensures Keep(Keep(s, p), q) == Keep(s, r)
  {
    if s == [] {
    } else {
      var front, last := s[..|s| - 1], s[|s| - 1];
      assert forall n :: n in front ==> n in s;
      assert last in s;
      KeepTwice(front, p, q, r);
      var kept := Keep(front, p);
      KeepAppend(kept, last, q);
      assert Keep(s, p) == if p(last) then kept + [last] else kept;
    }
  }

  lemma {:induction false} KeepSame<T>(s: seq<T>, p: T -> bool, q: T -> bool)
    requires forall n :: n in s ==> p(n) == q(n)
    ensures Keep(s, p) == Keep(s, q)
  {
    if s == [] {
    } else {
      assert forall n :: n in s[..|s| - 1] ==> n in s;
      assert s[|s| - 1] in s;
      KeepSame(s[..|s| - 1], p, q);
    }
  }
}
