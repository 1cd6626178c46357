/** Order and reordering of sequences, shared by the planner, the selector and the store. */
module Collections {

  datatype Option<+T> = None | Some(value: T)

  /** Dictionary order on character codes. */
  predicate Alphabetical(x: string, y: string) {
    if y == "" then false
    else if x == "" then true
    else if x[0] != y[0] then x[0] < y[0]
    else Alphabetical(x[1..], y[1..])
  }

  lemma {:induction false} AlphabeticalOrders(x: string, y: string, z: string)
    ensures Alphabetical(x, y) && Alphabetical(y, z) ==> Alphabetical(x, z)
    ensures x != y ==> Alphabetical(x, y) || Alphabetical(y, x)
    ensures !(Alphabetical(x, y) && Alphabetical(y, x))
  {
    if x != "" {
      AlphabeticalOrders(x[1..], if y != "" then y[1..] else "", if z != "" then z[1..] else "");
      assert y != "" ==> x == [x[0]] + x[1..] && y == [y[0]] + y[1..];
    }
  }

  lemma {:induction false} Cardinality<T>(a: set<T>, b: set<T>)
    requires a <= b
    ensures |a| <= |b| && (|a| == |b| ==> a == b)
  {
    if a != {} {
      var x :| x in a;
      Cardinality(a - {x}, b - {x});
    }
  }

  // ---- reordered sequences ----------------------------------------------------------------

  lemma SameLength<T>(a: seq<T>, b: seq<T>)
    requires multiset(a) == multiset(b)
    ensures |a| == |b|
  {
    assert |multiset(a)| == |a| && |multiset(b)| == |b|;
  }

  lemma SameMembers<T>(a: seq<T>, b: seq<T>)
    requires multiset(a) == multiset(b)
    ensures forall x :: x in a <==> x in b
  {
    forall x
      ensures x in a <==> x in b
    {
      assert x in a <==> x in multiset(a);
      assert x in b <==> x in multiset(b);
    }
  }

  /** Where an element of a reordered sequence stands, and what is left without it. */
  lemma TakeOut<T>(a: seq<T>, b: seq<T>) returns (i: nat)
    requires a != [] && multiset(a) == multiset(b)
    ensures i < |b| && b[i] == a[0]
    ensures multiset(a[1..]) == multiset(b[..i] + b[i + 1..])
    ensures b == b[..i] + [b[i]] + b[i + 1..]
  {
    assert a[0] in multiset(b);
    i :| 0 <= i < |b| && b[i] == a[0];
    assert a == [a[0]] + a[1..];
    assert b == b[..i] + [b[i]] + b[i + 1..];
    assert multiset(a[1..]) == multiset(a) - multiset{a[0]};
    assert multiset(b[..i] + b[i + 1..]) == multiset(b) - multiset{a[0]};
  }

  // ---- sorting --------------------------------------------------------------------------------

  function Insert<T(!new)>(before: (T, T) -> bool, x: T, s: seq<T>): (r: seq<T>)
    ensures forall y :: y in r <==> y == x || y in s
  {
    if s == [] || !before(s[0], x) then [x] + s else [s[0]] + Insert(before, x, s[1..])
  }

  function Sort<T(!new)>(before: (T, T) -> bool, s: seq<T>): (r: seq<T>)
    ensures forall y :: y in r <==> y in s
  {
    if s == [] then [] else Insert(before, s[0], Sort(before, s[1..]))
  }

  ghost predicate Sorted<T>(before: (T, T) -> bool, s: seq<T>) {
    forall i, j :: 0 <= i < j < |s| ==> before(s[i], s[j])
  }

  ghost predicate StrictOrder<T(!new)>(before: (T, T) -> bool) {
    && (forall x, y, z :: before(x, y) && before(y, z) ==> before(x, z))
    && (forall x, y :: !(before(x, y) && before(y, x)))
  }

  /** Any two places of `s` compare. */
  ghost predicate Ranked<T>(before: (T, T) -> bool, s: seq<T>) {
    forall i, j :: 0 <= i < j < |s| ==> before(s[i], s[j]) || before(s[j], s[i])
  }

  lemma {:induction false} InsertSorts<T(!new)>(before: (T, T) -> bool, x: T, s: seq<T>)
    requires StrictOrder(before) && Sorted(before, s)
    requires forall y :: y in s ==> before(x, y) || before(y, x)
    ensures Sorted(before, Insert(before, x, s))
  {
    if s != [] {
      if !before(s[0], x) {
        assert before(x, s[0]);
        forall j | 0 <= j < |s|
          ensures before(x, s[j])
        {
          assert j > 0 ==> before(s[0], s[j]);
        }
      } else {
        InsertSorts(before, x, s[1..]);
        forall y | y in Insert(before, x, s[1..])
          ensures before(s[0], y)
        {
          assert y != x ==> exists j :: 1 <= j < |s| && s[j] == y;
        }
      }
    }
  }

  lemma {:induction false} SortSorts<T(!new)>(before: (T, T) -> bool, s: seq<T>)
    requires StrictOrder(before) && Ranked(before, s)
    ensures Sorted(before, Sort(before, s))
  {
    if s != [] {
      SortSorts(before, s[1..]);
      forall y | y in s[1..]
        ensures before(s[0], y) || before(y, s[0])
      {
        var j :| 1 <= j < |s| && s[j] == y;
      }
      InsertSorts(before, s[0], Sort(before, s[1..]));
    }
  }

  lemma {:induction false} ReorderedIsRanked<T(!new)>(before: (T, T) -> bool, a: seq<T>, b: seq<T>)
    requires Ranked(before, a) && multiset(a) == multiset(b)
    ensures Ranked(before, b)
  {
    if b != [] {
      var i := TakeOut(b, a);
      var rest := a[..i] + a[i + 1..];
      forall j | 0 <= j < |rest|
        ensures rest[j] == a[if j < i then j else j + 1]
      {
      }
      ReorderedIsRanked(before, rest, b[1..]);
      SameMembers(b[1..], rest);
      forall y | y in rest
        ensures before(b[0], y) || before(y, b[0])
      {
        var j :| 0 <= j < |rest| && rest[j] == y;
        assert y == a[if j < i then j else j + 1];
      }
    }
  }

  lemma {:induction false} InsertAdds<T(!new)>(before: (T, T) -> bool, x: T, s: seq<T>)
    ensures multiset(Insert(before, x, s)) == multiset(s) + multiset{x}
  {
    if s != [] && before(s[0], x) {
      InsertAdds(before, x, s[1..]);
      assert s == [s[0]] + s[1..];
    }
  }

  lemma {:induction false} SortAdds<T(!new)>(before: (T, T) -> bool, s: seq<T>)
    ensures multiset(Sort(before, s)) == multiset(s)
  {
    if s != [] {
      SortAdds(before, s[1..]);
      InsertAdds(before, s[0], Sort(before, s[1..]));
      assert s == [s[0]] + s[1..];
    }
  }

  /** A strict order leaves only one sorted arrangement. */
  lemma {:induction false} SortedIsUnique<T(!new)>(before: (T, T) -> bool, a: seq<T>, b: seq<T>)
    requires StrictOrder(before) && Sorted(before, a) && Sorted(before, b) && multiset(a) == multiset(b)
    ensures a == b
  {
    SameLength(a, b);
    if a != [] {
      var i := TakeOut(a, b);
      var j := TakeOut(b, a);
      assert i == 0;
      assert b[..0] + b[1..] == b[1..];
      SortedIsUnique(before, a[1..], b[1..]);
    }
  }
}
