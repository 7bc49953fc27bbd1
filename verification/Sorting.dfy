/** A stable sort, standing for Go's sort.SliceStable and sort.Strings. */
module Sorting {
  import opened Text

  ghost predicate Preorder<T(!new)>(leq: (T, T) -> bool) {
    && (forall x, y :: leq(x, y) || leq(y, x))
    && (forall x, y, z :: leq(x, y) && leq(y, z) ==> leq(x, z))
  }

  ghost predicate Sorted<T>(s: seq<T>, leq: (T, T) -> bool) {
    forall i, j :: 0 <= i < j < |s| ==> leq(s[i], s[j])
  }

  /** Puts `x` in front of the first element that may follow it. */
  function Insert<T>(x: T, s: seq<T>, leq: (T, T) -> bool): (r: seq<T>)
    ensures |r| == |s| + 1
  {
    if s == [] || leq(x, s[0]) then [x] + s else [s[0]] + Insert(x, s[1..], leq)
  }

  function Sort<T>(s: seq<T>, leq: (T, T) -> bool): (r: seq<T>)
    ensures |r| == |s|
  {
    if s == [] then [] else Insert(s[0], Sort(s[1..], leq), leq)
  }

  lemma {:induction false} InsertPermutes<T>(x: T, s: seq<T>, leq: (T, T) -> bool)
    ensures multiset(Insert(x, s, leq)) == multiset{x} + multiset(s)
  {
    if !(s == [] || leq(x, s[0])) {
      InsertPermutes(x, s[1..], leq);
      assert s == [s[0]] + s[1..];
    }
  }

  lemma {:induction false} SortPermutes<T>(s: seq<T>, leq: (T, T) -> bool)
    ensures multiset(Sort(s, leq)) == multiset(s)
  {
    if s != [] {
      SortPermutes(s[1..], leq);
      InsertPermutes(s[0], Sort(s[1..], leq), leq);
      assert s == [s[0]] + s[1..];
    }
  }

  lemma {:induction false} InsertSorts<T(!new)>(x: T, s: seq<T>, leq: (T, T) -> bool)
    requires Preorder(leq) && Sorted(s, leq)
    ensures Sorted(Insert(x, s, leq), leq)
  {
    if !(s == [] || leq(x, s[0])) {
      var rest := Insert(x, s[1..], leq);
      assert Sorted(s[1..], leq);
      InsertSorts(x, s[1..], leq);
      InsertPermutes(x, s[1..], leq);
      forall j | 0 <= j < |rest| ensures leq(s[0], rest[j]) {
        assert rest[j] in multiset(rest);
        assert rest[j] == x || rest[j] in s[1..];
      }
    }
  }

  lemma {:induction false} SortSorts<T(!new)>(s: seq<T>, leq: (T, T) -> bool)
    requires Preorder(leq)
    ensures Sorted(Sort(s, leq), leq)
  {
    if s != [] {
      SortSorts(s[1..], leq);
      InsertSorts(s[0], Sort(s[1..], leq), leq);
    }
  }

  ghost predicate Antisymmetric<T(!new)>(leq: (T, T) -> bool) { forall x, y :: leq(x, y) && leq(y, x) ==> x == y }

  lemma LeastFirst<T(!new)>(a: seq<T>, leq: (T, T) -> bool, x: T)
    requires Preorder(leq) && Sorted(a, leq) && x in a
    ensures leq(a[0], x)
  {
    assert leq(a[0], a[0]);
  }

  lemma DropHead<T>(a: seq<T>)
    requires a != []
    ensures multiset(a[1..]) == multiset(a) - multiset{a[0]}
  {
    assert a == [a[0]] + a[1..];
  }

  /** Under an order without ties the sorted arrangement is the only one. */
  lemma {:induction false} SortedIsUnique<T(!new)>(a: seq<T>, b: seq<T>, leq: (T, T) -> bool)
    requires Preorder(leq) && Antisymmetric(leq)
    requires Sorted(a, leq) && Sorted(b, leq) && multiset(a) == multiset(b)
    ensures a == b
  {
    assert |a| == |multiset(a)| == |multiset(b)| == |b|;
    if a != [] {
      assert a[0] in multiset(b) && b[0] in multiset(a);
      LeastFirst(a, leq, b[0]);
      LeastFirst(b, leq, a[0]);
      hide Preorder;
      assert a[0] == b[0];
      DropHead(a);
      DropHead(b);
      SortedIsUnique(a[1..], b[1..], leq);
      assert a == [a[0]] + a[1..] && b == [b[0]] + b[1..];
    }
  }

  // ---------- strings ----------

  lemma StringLeqIsPreorder()
    ensures Preorder(StringLeq) && Antisymmetric(StringLeq)
  {
    forall x, y ensures StringLeq(x, y) || StringLeq(y, x) { StringLeqTotal(x, y); }
    forall x, y, z | StringLeq(x, y) && StringLeq(y, z) ensures StringLeq(x, z) { StringLeqTransitive(x, y, z); }
    forall x, y | StringLeq(x, y) && StringLeq(y, x) ensures x == y { StringLeqAntisymmetric(x, y); }
  }

  /** One field of a lexicographic comparison. */
  lemma LexStep(a: string, b: string, c: string)
    ensures StringLeq(a, b) || StringLeq(b, a)
    ensures StringLeq(a, b) && StringLeq(b, a) ==> a == b
    ensures StringLeq(a, b) && StringLeq(b, c) ==> StringLeq(a, c) && (a == c ==> a == b)
  {
    StringLeqTotal(a, b);
    if StringLeq(a, b) && StringLeq(b, a) { StringLeqAntisymmetric(a, b); }
    if StringLeq(a, b) && StringLeq(b, c) {
      StringLeqTransitive(a, b, c);
      if a == c { StringLeqAntisymmetric(a, b); }
    }
  }
}
