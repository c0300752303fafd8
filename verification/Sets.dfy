/** Sizes of finite sets. */
module Sets {

  lemma {:induction false} SubsetSize<T>(a: set<T>, b: set<T>)
    requires a <= b
    ensures |a| <= |b|
  {
    if a != {} {
      var x :| x in a;
      SubsetSize(a - {x}, b - {x});
    }
  }

  lemma OneMoreElement<T>(a: set<T>, x: T)
    requires x !in a
    ensures |a + {x}| == |a| + 1
  {
  }

  lemma OneElementLess<T>(a: set<T>, x: T)
    requires x in a
    ensures |a - {x}| == |a| - 1
  {
  }

  /** A set in three parts, with one element more in the first, or moved to the second. */
  lemma PartsGrow<T>(whole: set<T>, a: set<T>, b: set<T>, c: set<T>, x: T)
    requires whole == a + b + c
    ensures whole + {x} == (a + {x}) + b + c
    ensures x in a ==> whole == (a - {x}) + (b + {x}) + c && whole == (a - {x}) + b + (c + {x})
  {
  }
}
