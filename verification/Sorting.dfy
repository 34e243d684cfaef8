/** A stable sort, and why its result is the only strictly ordered listing of its elements. */
module Sorting {

  /** Puts x after every element it does not precede. */
  function Insert<T>(x: T, s: seq<T>, before: (T, T) -> bool): seq<T> {
    if s != [] && before(x, s[|s| - 1]) then Insert(x, s[..|s| - 1], before) + [s[|s| - 1]] else s + [x]
  }

  function Sort<T>(s: seq<T>, before: (T, T) -> bool): seq<T> {
    if s == [] then [] else Insert(s[|s| - 1], Sort(s[..|s| - 1], before), before)
  }

  ghost predicate Strict<T>(s: seq<T>, before: (T, T) -> bool) {
    forall i, j | 0 <= i < j < |s| :: before(s[i], s[j])
  }

  /** `before` is a strict order on the elements of s, and s lists each of them once. */
  ghost predicate Sortable<T>(s: seq<T>, before: (T, T) -> bool) {
    && (forall x, y, z | x in s && y in s && z in s && before(x, y) && before(y, z) :: before(x, z))
    && (forall x | x in s :: !before(x, x))
    && (forall i, j | 0 <= i < j < |s| :: before(s[i], s[j]) || before(s[j], s[i]))
  }

  lemma {:induction false} InsertIn<T>(x: T, s: seq<T>, before: (T, T) -> bool)
    ensures multiset(Insert(x, s, before)) == multiset(s) + multiset{x}
  {
    if s != [] && before(x, s[|s| - 1]) {
      InsertIn(x, s[..|s| - 1], before);
      assert s == s[..|s| - 1] + [s[|s| - 1]];
    }
  }

  lemma {:induction false} InsertStrict<T>(x: T, s: seq<T>, before: (T, T) -> bool)
    requires Strict(s, before)
    requires forall a, b, c | a in s + [x] && b in s + [x] && c in s + [x] && before(a, b) && before(b, c) :: before(a, c)
    requires forall y | y in s :: before(x, y) || before(y, x)
    ensures Strict(Insert(x, s, before), before)
  {
    if s == [] {
      assert Insert(x, s, before) == [x];
    } else {
      var init, last := s[..|s| - 1], s[|s| - 1];
      if before(x, last) {
        assert forall a | a in init + [x] :: a in s + [x];
        InsertStrict(x, init, before);
        InsertIn(x, init, before);
        var r := Insert(x, init, before);
        forall i | 0 <= i < |r| ensures before(r[i], last) {
          assert r[i] in r;
          if r[i] != x {
            assert r[i] in multiset(r);
            assert r[i] in init;
            var k :| 0 <= k < |init| && init[k] == r[i];
            assert before(s[k], s[|s| - 1]);
          }
        }
      } else {
        assert before(last, x) by { assert last in s; }
        forall i | 0 <= i < |s| ensures before(s[i], x) {
          if i < |s| - 1 { assert before(s[i], last) && s[i] in s + [x] && last in s + [x] && x in s + [x]; }
        }
      }
    }
  }

  lemma {:induction false} SortIn<T>(s: seq<T>, before: (T, T) -> bool)
    ensures multiset(Sort(s, before)) == multiset(s)
  {
    if s == [] {
      assert Sort(s, before) == s;
    } else {
      SortIn(s[..|s| - 1], before);
      InsertIn(s[|s| - 1], Sort(s[..|s| - 1], before), before);
      Snoc(s);
    }
  }

  lemma Snoc<T>(s: seq<T>)
    requires s != []
    ensures multiset(s) == multiset(s[..|s| - 1]) + multiset{s[|s| - 1]}
  {
    assert s == s[..|s| - 1] + [s[|s| - 1]];
  }

  lemma {:induction false} SortStrict<T>(s: seq<T>, before: (T, T) -> bool)
    requires Sortable(s, before)
    ensures Strict(Sort(s, before), before)
  {
    if s != [] {
      var init, last := s[..|s| - 1], s[|s| - 1];
      assert forall x | x in init :: x in s;
      SortStrict(init, before);
      SortIn(init, before);
      var sorted := Sort(init, before);
      forall y | y in sorted ensures before(last, y) || before(y, last) {
        assert y in multiset(Sort(init, before));
        assert y in init;
        var k :| 0 <= k < |init| && init[k] == y;
        assert before(s[k], s[|s| - 1]) || before(s[|s| - 1], s[k]);
      }
      forall x | x in sorted + [last] ensures x in s {
        assert x in multiset(Sort(init, before)) || x == last;
        assert x in init || x == last;
      }
      InsertStrict(last, sorted, before);
    }
  }

  lemma HeadIsLeast<T>(s: seq<T>, x: T, before: (T, T) -> bool)
    requires Strict(s, before) && x in s
    ensures x == s[0] || before(s[0], x)
  {
    var k :| 0 <= k < |s| && s[k] == x;
  }

  /** Two strictly ordered listings of the same elements are the same listing. */
  lemma {:induction false} StrictIsUnique<T>(a: seq<T>, b: seq<T>, before: (T, T) -> bool)
    requires Strict(a, before) && Strict(b, before)
    requires forall x, y | x in a && y in a && before(x, y) :: !before(y, x)
    requires forall x :: x in a <==> x in b
    ensures a == b
  {
    assert b != [] ==> b[0] in b;
    if a != [] {
      assert a[0] in a && b[0] in b;
      HeadIsLeast(a, b[0], before);
      HeadIsLeast(b, a[0], before);
      assert a[0] == b[0];
      forall x ensures x in a[1..] <==> x in b[1..] {
        if x in a[1..] {
          var i :| 0 <= i < |a[1..]| && a[1..][i] == x;
          assert before(a[0], a[i + 1]) && a[i + 1] in a;
          var j :| 0 <= j < |b| && b[j] == x;
          assert j > 0;
          assert b[1..][j - 1] == x;
        }
        if x in b[1..] {
          var i :| 0 <= i < |b[1..]| && b[1..][i] == x;
          assert before(b[0], b[i + 1]) && b[i + 1] in b;
          var j :| 0 <= j < |a| && a[j] == x;
          assert j > 0;
          assert a[1..][j - 1] == x;
        }
      }
      assert forall x | x in a[1..] :: x in a;
      StrictIsUnique(a[1..], b[1..], before);
    }
  }

  /** Sorting what is already in order changes nothing, ties included. */
  lemma {:induction false} SortSorted<T>(s: seq<T>, before: (T, T) -> bool)
    requires forall i, j | 0 <= i < j < |s| :: !before(s[j], s[i])
    ensures Sort(s, before) == s
  {
    if s != [] {
      var init, last := s[..|s| - 1], s[|s| - 1];
      assert init != [] ==> !before(last, s[|s| - 2]);
      SortSorted(init, before);
      assert Insert(last, init, before) == init + [last];
      assert s == init + [last];
    }
  }
}
