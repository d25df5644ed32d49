/** The array built-ins the journal code relies on: a stable `sort` with a descending
    comparator on a numeric key, `filter`, `map` and `reverse`, as functions on sequences. */
module Lists {

  predicate SortedDesc<T>(s: seq<T>, key: T -> int) {
    forall i, j :: 0 <= i < j < |s| ==> key(s[i]) >= key(s[j])
  }

  function Map<A, B>(f: A -> B, s: seq<A>): (r: seq<B>)
    ensures |r| == |s|
    ensures forall i :: 0 <= i < |s| ==> r[i] == f(s[i])
  {
    if s == [] then [] else [f(s[0])] + Map(f, s[1..])
  }

  function Filter<T>(p: T -> bool, s: seq<T>): (r: seq<T>)
    ensures |r| <= |s|
    ensures forall i :: 0 <= i < |r| ==> p(r[i])
    ensures forall x :: x in s && p(x) ==> multiset(r)[x] == multiset(s)[x]
    ensures forall x :: x in r ==> x in s
  {
    if s == [] then []
    else if p(s[0]) then
      assert s == [s[0]] + s[1..];
      [s[0]] + Filter(p, s[1..])
    else
      assert s == [s[0]] + s[1..];
      Filter(p, s[1..])
  }

  function Reverse<T>(s: seq<T>): (r: seq<T>)
    ensures |r| == |s|
    ensures forall i :: 0 <= i < |s| ==> r[i] == s[|s| - 1 - i]
  {
    if s == [] then [] else Reverse(s[1..]) + [s[0]]
  }

  /** `s.filter(x => idOf(x) !== id)`: no element carrying `id` is left. */
  function RemoveWithId<T>(s: seq<T>, id: string, idOf: T -> string): (r: seq<T>)
    ensures |r| <= |s|
    ensures forall i :: 0 <= i < |r| ==> idOf(r[i]) != id
  {
    if s == [] then []
    else if idOf(s[0]) == id then RemoveWithId(s[1..], id, idOf)
    else [s[0]] + RemoveWithId(s[1..], id, idOf)
  }

  /** Every element not carrying `id` stays, as often as it was there. */
  lemma {:induction false} RemoveWithIdKeepsOthers<T>(s: seq<T>, id: string, idOf: T -> string)
    ensures forall x :: x in s && idOf(x) != id ==> multiset(RemoveWithId(s, id, idOf))[x] == multiset(s)[x]
  {
    if s != [] {
      RemoveWithIdKeepsOthers(s[1..], id, idOf);
      var rest := RemoveWithId(s[1..], id, idOf);
      assert s == [s[0]] + s[1..];
      assert multiset(s) == multiset{s[0]} + multiset(s[1..]);
      if idOf(s[0]) != id {
        assert multiset([s[0]] + rest) == multiset{s[0]} + multiset(rest);
      }
      forall x | x in s && idOf(x) != id
        ensures multiset(RemoveWithId(s, id, idOf))[x] == multiset(s)[x]
      {
        if x !in s[1..] {
          assert multiset(s[1..])[x] == 0;
          assert multiset(rest)[x] == 0 by {
            RemoveWithIdSubset(s[1..], id, idOf);
          }
        }
      }
    }
  }

  /** Nothing new appears. */
  lemma {:induction false} RemoveWithIdSubset<T>(s: seq<T>, id: string, idOf: T -> string)
    ensures forall x :: x in RemoveWithId(s, id, idOf) ==> x in s
  {
    if s != [] {
      RemoveWithIdSubset(s[1..], id, idOf);
    }
  }

  /** A sequence without `id` comes back unchanged. */
  lemma {:induction false} RemoveWithIdAbsent<T>(s: seq<T>, id: string, idOf: T -> string)
    requires forall i :: 0 <= i < |s| ==> idOf(s[i]) != id
    ensures RemoveWithId(s, id, idOf) == s
  {
    if s != [] {
      RemoveWithIdAbsent(s[1..], id, idOf);
      assert s == [s[0]] + s[1..];
    }
  }

  /** `[x] + a + b` groups either way. */
  lemma ConsConcat<T>(x: T, a: seq<T>, b: seq<T>)
    ensures ([x] + a) + b == [x] + (a + b)
  {
  }

  /** Removal works piece by piece, so the survivors keep their relative order. */
  lemma {:induction false} RemoveWithIdAppend<T>(a: seq<T>, b: seq<T>, id: string, idOf: T -> string)
    ensures RemoveWithId(a + b, id, idOf) == RemoveWithId(a, id, idOf) + RemoveWithId(b, id, idOf)
  {
    if a == [] {
      assert a + b == b;
    } else {
      var ab := a + b;
      assert ab[0] == a[0];
      assert ab[1..] == a[1..] + b;
      RemoveWithIdAppend(a[1..], b, id, idOf);
      if idOf(a[0]) != id {
        ConsConcat(a[0], RemoveWithId(a[1..], id, idOf), RemoveWithId(b, id, idOf));
      }
    }
  }

  /** Filtering works piece by piece, so the survivors keep their relative order. */
  lemma {:induction false} FilterAppend<T>(p: T -> bool, a: seq<T>, b: seq<T>)
    ensures Filter(p, a + b) == Filter(p, a) + Filter(p, b)
  {
    if a == [] {
      assert a + b == b;
    } else {
      var ab := a + b;
      assert ab[0] == a[0];
      assert ab[1..] == a[1..] + b;
      FilterAppend(p, a[1..], b);
      if p(a[0]) {
        ConsConcat(a[0], Filter(p, a[1..]), Filter(p, b));
      }
    }
  }

  /** Reversing a concatenation reverses the order of the parts. */
  lemma ReverseAppend<T>(a: seq<T>, b: seq<T>)
    ensures Reverse(a + b) == Reverse(b) + Reverse(a)
  {
    var r, ab := Reverse(a + b), a + b;
    forall i | 0 <= i < |r| ensures r[i] == (Reverse(b) + Reverse(a))[i] {
      if i < |b| {
        assert ab[|ab| - 1 - i] == b[|b| - 1 - i];
      } else {
        assert ab[|ab| - 1 - i] == a[|a| - 1 - (i - |b|)];
      }
    }
  }

  /** Mapping works piece by piece. */
  lemma MapAppend<A, B>(f: A -> B, a: seq<A>, b: seq<A>)
    ensures Map(f, a + b) == Map(f, a) + Map(f, b)
  {
    var r, ab := Map(f, a + b), a + b;
    forall i | 0 <= i < |r| ensures r[i] == (Map(f, a) + Map(f, b))[i] {
      if i >= |a| {
        assert ab[i] == b[i - |a|];
      }
    }
  }

  /** Where a stable descending sort places an element that comes after all of `s`:
      behind every element whose key is at least its own. */
  function InsertDesc<T>(s: seq<T>, x: T, key: T -> int): (r: seq<T>)
    ensures |r| == |s| + 1
    ensures multiset(r) == multiset(s) + multiset{x}
    ensures forall y :: y in r ==> y in s || y == x
  {
    if s == [] then [x]
    else if key(s[0]) >= key(x) then
      assert s == [s[0]] + s[1..];
      [s[0]] + InsertDesc(s[1..], x, key)
    else [x] + s
  }

  /** `Array.prototype.sort` (stable) with comparator `(a, b) => key(b) - key(a)`. */
  function SortDesc<T>(s: seq<T>, key: T -> int): (r: seq<T>)
    ensures |r| == |s|
    ensures multiset(r) == multiset(s)
  {
    if s == [] then []
    else
      assert s == s[..|s| - 1] + [s[|s| - 1]];
      InsertDesc(SortDesc(s[..|s| - 1], key), s[|s| - 1], key)
  }

  /** An element no smaller than everything after it, in front of an ordered sequence,
      keeps it ordered. */
  lemma ConsSorted<T>(h: T, t: seq<T>, key: T -> int)
    requires SortedDesc(t, key)
    requires forall y :: y in t ==> key(y) <= key(h)
    ensures SortedDesc([h] + t, key)
  {
    var r := [h] + t;
    forall i, j | 0 <= i < j < |r| ensures key(r[i]) >= key(r[j]) {
      assert r[j] == t[j - 1];
      if i > 0 {
        assert r[i] == t[i - 1];
      }
    }
  }

  lemma {:induction false} InsertDescSorted<T>(s: seq<T>, x: T, key: T -> int)
    requires SortedDesc(s, key)
    ensures SortedDesc(InsertDesc(s, x, key), key)
  {
    if s == [] {
    } else if key(s[0]) >= key(x) {
      var tail := InsertDesc(s[1..], x, key);
      InsertDescSorted(s[1..], x, key);
      forall y | y in tail ensures key(y) <= key(s[0]) {
        if y != x {
          var k :| 0 <= k < |s[1..]| && s[1..][k] == y;
          assert s[k + 1] == y;
        }
      }
      ConsSorted(s[0], tail, key);
    } else {
      forall y | y in s ensures key(y) <= key(x) {
        var k :| 0 <= k < |s| && s[k] == y;
        assert key(s[k]) <= key(s[0]);
      }
      ConsSorted(x, s, key);
    }
  }

  /** The sort leaves its result ordered newest first and holds the same elements. */
  lemma {:induction false} SortDescSorted<T>(s: seq<T>, key: T -> int)
    ensures SortedDesc(SortDesc(s, key), key)
    ensures multiset(SortDesc(s, key)) == multiset(s)
  {
    if s != [] {
      SortDescSorted(s[..|s| - 1], key);
      InsertDescSorted(SortDesc(s[..|s| - 1], key), s[|s| - 1], key);
    }
  }

  lemma {:induction false} InsertDescAtEnd<T>(s: seq<T>, x: T, key: T -> int)
    requires forall i :: 0 <= i < |s| ==> key(s[i]) >= key(x)
    ensures InsertDesc(s, x, key) == s + [x]
  {
    if s != [] {
      InsertDescAtEnd(s[1..], x, key);
      assert s == [s[0]] + s[1..];
    }
  }

  /** Sorting a sequence that is already ordered changes nothing. */
  lemma {:induction false} SortDescOfSorted<T>(s: seq<T>, key: T -> int)
    requires SortedDesc(s, key)
    ensures SortDesc(s, key) == s
  {
    if s != [] {
      var init := s[..|s| - 1];
      SortDescOfSorted(init, key);
      InsertDescAtEnd(init, s[|s| - 1], key);
      assert init + [s[|s| - 1]] == s;
    }
  }

  /** Pushing onto an ordered sequence and sorting is the same as inserting the new
      element behind every element that is not older than it. */
  lemma PushThenSort<T>(s: seq<T>, x: T, key: T -> int)
    requires SortedDesc(s, key)
    ensures SortDesc(s + [x], key) == InsertDesc(s, x, key)
  {
    assert (s + [x])[..|s|] == s;
    SortDescOfSorted(s, key);
  }

  lemma {:induction false} InsertDescMap<A, B>(f: A -> B, s: seq<A>, x: A, keyA: A -> int, keyB: B -> int)
    requires forall y :: keyB(f(y)) == keyA(y)
    ensures InsertDesc(Map(f, s), f(x), keyB) == Map(f, InsertDesc(s, x, keyA))
  {
    if s != [] {
      assert Map(f, s)[1..] == Map(f, s[1..]);
      InsertDescMap(f, s[1..], x, keyA, keyB);
      if keyA(s[0]) < keyA(x) {
        assert Map(f, [x] + s) == [f(x)] + Map(f, s);
      } else {
        assert Map(f, [s[0]] + InsertDesc(s[1..], x, keyA)) == [f(s[0])] + Map(f, InsertDesc(s[1..], x, keyA));
      }
    }
  }

  /** Decorating every element without touching its key commutes with the sort. */
  lemma {:induction false} SortDescMap<A, B>(f: A -> B, s: seq<A>, keyA: A -> int, keyB: B -> int)
    requires forall y :: keyB(f(y)) == keyA(y)
    ensures SortDesc(Map(f, s), keyB) == Map(f, SortDesc(s, keyA))
  {
    if s != [] {
      var init := s[..|s| - 1];
      assert Map(f, s)[..|s| - 1] == Map(f, init);
      SortDescMap(f, init, keyA, keyB);
      InsertDescMap(f, SortDesc(init, keyA), s[|s| - 1], keyA, keyB);
    }
  }
}
