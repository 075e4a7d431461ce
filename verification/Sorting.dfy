/** The stable sort that Python's `sorted` performs, as a function with its characterisation. */
module Sorting {

  ghost predicate TotalPreorder<T(!new)>(le: (T, T) -> bool) {
    && (forall a, b :: le(a, b) || le(b, a))
    && (forall a, b, c :: le(a, b) && le(b, c) ==> le(a, c))
  }

  ghost predicate Ascending<T>(le: (T, T) -> bool, s: seq<T>) {
    forall i, j :: 0 <= i < j < |s| ==> le(s[i], s[j])
  }

  /** No two different members of `s` tie under `le`. */
  ghost predicate NoTies<T>(le: (T, T) -> bool, s: seq<T>) {
    forall a, b :: a in s && b in s && le(a, b) && le(b, a) ==> a == b
  }

  function Insert<T>(x: T, s: seq<T>, le: (T, T) -> bool): seq<T> {
    if s == [] || le(x, s[0]) then [x] + s else [s[0]] + Insert(x, s[1..], le)
  }

  function Sort<T>(s: seq<T>, le: (T, T) -> bool): seq<T> {
    if s == [] then [] else Insert(s[0], Sort(s[1..], le), le)
  }

  lemma {:induction false} InsertPermutes<T(!new)>(x: T, s: seq<T>, le: (T, T) -> bool)
    ensures multiset(Insert(x, s, le)) == multiset(s) + multiset{x} && |Insert(x, s, le)| == |s| + 1
  {
    if s != [] {
      assert s == [s[0]] + s[1..];
      if !le(x, s[0]) {
        InsertPermutes(x, s[1..], le);
      }
    }
  }

  lemma {:induction false} InsertAscends<T(!new)>(x: T, s: seq<T>, le: (T, T) -> bool)
    requires TotalPreorder(le) && Ascending(le, s)
    ensures Ascending(le, Insert(x, s, le))
  {
    if s == [] || le(x, s[0]) {
      assert forall j :: 0 <= j < |s| ==> le(s[0], s[j]) || j == 0;
    } else {
      var rest := s[1..];
      var t := Insert(x, rest, le);
      assert forall i :: 0 <= i < |rest| ==> rest[i] == s[i + 1];
      InsertAscends(x, rest, le);
      InsertPermutes(x, rest, le);
      forall y | y in t ensures le(s[0], y) {
        assert y in multiset(t);
        assert y == x || y in rest;
      }
      assert Insert(x, s, le) == [s[0]] + t;
    }
  }

  lemma {:induction false} SortPermutes<T(!new)>(s: seq<T>, le: (T, T) -> bool)
    ensures multiset(Sort(s, le)) == multiset(s) && |Sort(s, le)| == |s|
  {
    if s != [] {
      SortPermutes(s[1..], le);
      InsertPermutes(s[0], Sort(s[1..], le), le);
      assert s == [s[0]] + s[1..];
    }
  }

  lemma {:induction false} SortAscends<T(!new)>(s: seq<T>, le: (T, T) -> bool)
    requires TotalPreorder(le)
    ensures Ascending(le, Sort(s, le))
  {
    if s != [] {
      SortAscends(s[1..], le);
      InsertAscends(s[0], Sort(s[1..], le), le);
    }
  }

  /** Sorting permutes its input and leaves it ascending. */
  lemma {:induction false} SortSorts<T(!new)>(s: seq<T>, le: (T, T) -> bool)
    ensures multiset(Sort(s, le)) == multiset(s)
    ensures |Sort(s, le)| == |s|
    ensures forall x :: x in Sort(s, le) <==> x in s
    ensures TotalPreorder(le) ==> Ascending(le, Sort(s, le))
  {
    SortPermutes(s, le);
    forall x ensures x in Sort(s, le) <==> x in s {
      assert x in Sort(s, le) <==> x in multiset(Sort(s, le));
      assert x in s <==> x in multiset(s);
    }
    if TotalPreorder(le) { SortAscends(s, le); }
  }

  lemma {:induction false} HeadsAgree<T(!new)>(s: seq<T>, t: seq<T>, le: (T, T) -> bool)
    requires TotalPreorder(le) && Ascending(le, s) && Ascending(le, t) && NoTies(le, s)
    requires s != [] && t != [] && multiset(s) == multiset(t)
    ensures s[0] == t[0]
  {
    assert s[0] in multiset(t) && t[0] in multiset(s);
    var i :| 0 <= i < |t| && t[i] == s[0];
    var j :| 0 <= j < |s| && s[j] == t[0];
    assert le(t[0], t[i]) && le(s[0], s[j]);
  }

  /** Two ascending arrangements of the same elements without ties are equal. */
  lemma {:induction false} AscendingUnique<T(!new)>(s: seq<T>, t: seq<T>, le: (T, T) -> bool)
    requires TotalPreorder(le) && Ascending(le, s) && Ascending(le, t) && NoTies(le, s)
    requires multiset(s) == multiset(t)
    ensures s == t
  {
    assert |s| == |multiset(s)| == |multiset(t)| == |t|;
    if s != [] {
      HeadsAgree(s, t, le);
      TailsAgree(s, t);
      TailAscends(s, le);
      TailAscends(t, le);
      assert NoTies(le, s[1..]);
      AscendingUnique(s[1..], t[1..], le);
    }
  }

  lemma {:induction false} TailsAgree<T>(s: seq<T>, t: seq<T>)
    requires s != [] && t != [] && s[0] == t[0] && multiset(s) == multiset(t)
    ensures multiset(s[1..]) == multiset(t[1..])
    ensures s[1..] == t[1..] ==> s == t
  {
    assert s == [s[0]] + s[1..] && t == [t[0]] + t[1..];
    assert multiset(s[1..]) == multiset(s) - multiset{s[0]} == multiset(t[1..]);
  }

  lemma {:induction false} TailAscends<T>(s: seq<T>, le: (T, T) -> bool)
    requires s != [] && Ascending(le, s)
    ensures Ascending(le, s[1..])
  {
    var rest := s[1..];
    assert forall i :: 0 <= i < |rest| ==> rest[i] == s[i + 1];
  }

  /** What is sorted depends on the elements, not on the order in which they arrive. */
  lemma {:induction false} SortIgnoresOrder<T(!new)>(s: seq<T>, t: seq<T>, le: (T, T) -> bool)
    requires TotalPreorder(le) && NoTies(le, s) && multiset(s) == multiset(t)
    ensures Sort(s, le) == Sort(t, le)
  {
    SortSorts(s, le);
    SortSorts(t, le);
    AscendingUnique(Sort(s, le), Sort(t, le), le);
  }

  // ----- Lists without repeated keys --------------------------------------------------------

  predicate DistinctKeys<T, K(==)>(s: seq<T>, key: T -> K) {
    forall i, j :: 0 <= i < j < |s| ==> key(s[i]) != key(s[j])
  }

  /** Every element occurs once, and no two different elements share a key. */
  ghost predicate SingleKeys<T(!new), K>(s: seq<T>, key: T -> K) {
    && (forall x :: x in s ==> multiset(s)[x] == 1)
    && (forall x, y :: x in s && y in s && key(x) == key(y) ==> x == y)
  }

  lemma {:induction false} DistinctHead<T(!new), K>(s: seq<T>, key: T -> K)
    requires s != []
    ensures DistinctKeys(s, key) <==> DistinctKeys(s[1..], key) && forall x :: x in s[1..] ==> key(x) != key(s[0])
  {
    var rest := s[1..];
    if DistinctKeys(s, key) {
      forall x | x in rest ensures key(x) != key(s[0]) {
        var j :| 0 <= j < |rest| && rest[j] == x;
        assert s[j + 1] == x;
      }
    }
    if DistinctKeys(rest, key) && forall x :: x in rest ==> key(x) != key(s[0]) {
      forall i, j | 0 <= i < j < |s| ensures key(s[i]) != key(s[j]) {
        assert s[j] == rest[j - 1] && rest[j - 1] in rest;
        if i > 0 { assert s[i] == rest[i - 1]; }
      }
    }
  }

  lemma {:induction false} SingleHead<T(!new), K>(s: seq<T>, key: T -> K)
    requires s != []
    ensures SingleKeys(s, key) <==> SingleKeys(s[1..], key) && forall x :: x in s[1..] ==> key(x) != key(s[0])
  {
    var head, rest := s[0], s[1..];
    assert s == [head] + rest;
    assert multiset(s) == multiset{head} + multiset(rest);
    assert forall x :: x in s <==> x == head || x in rest;
    if SingleKeys(s, key) {
      assert multiset(s)[head] == 1;
      assert head !in rest;
      forall x | x in rest ensures multiset(rest)[x] == 1 && key(x) != key(head) {
        assert multiset(s)[x] == 1;
      }
    }
  }

  /** Distinctness of keys is a property of the elements, not of their order. */
  lemma {:induction false} DistinctIsSingle<T(!new), K>(s: seq<T>, key: T -> K)
    ensures DistinctKeys(s, key) <==> SingleKeys(s, key)
  {
    if s != [] {
      DistinctIsSingle(s[1..], key);
      DistinctHead(s, key);
      SingleHead(s, key);
    }
  }

  lemma {:induction false} DistinctPermutes<T(!new), K>(s: seq<T>, t: seq<T>, key: T -> K)
    requires multiset(s) == multiset(t)
    ensures DistinctKeys(s, key) <==> DistinctKeys(t, key)
  {
    DistinctIsSingle(s, key);
    DistinctIsSingle(t, key);
    assert forall x :: x in s <==> x in multiset(s);
    assert forall x :: x in t <==> x in multiset(t);
  }
}
