/** Sizes of finite sets of ids. */
module SetSizes {

  lemma {:induction false} SubsetSize<T>(a: set<T>, b: set<T>)
    requires a <= b
    ensures |a| <= |b|
  {
    if a != {} {
      var x :| x in a;
      SubsetSize(a - {x}, b - {x});
    }
  }

  lemma SingletonSize<T>(a: set<T>, x: T)
    ensures |a - {x}| == |a| - (if x in a then 1 else 0)
    ensures |a + {x}| == |a| + (if x in a then 0 else 1)
  {
    if x in a { assert a == (a - {x}) + {x} && a + {x} == a; } else { assert a - {x} == a; }
  }
}
