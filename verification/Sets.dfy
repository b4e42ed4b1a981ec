/** Facts about the sizes of finite sets. */
module Sets {
  lemma {:induction false} SubsetSize<T>(a: set<T>, b: set<T>)
    requires a <= b
    ensures |a| <= |b|
  {
    if a != {} {
      var x :| x in a;
      SubsetSize(a - {x}, b - {x});
    }
  }

  lemma {:induction false} SizeOfDistinct<T>(s: seq<T>)
    requires forall i, j | 0 <= i < j < |s| :: s[i] != s[j]
    ensures |(set x <- s)| == |s|
  {
    if s != [] {
      var init, last := s[..|s| - 1], s[|s| - 1];
      SizeOfDistinct(init);
      assert s == init + [last];
      assert (set x <- s) == (set x <- init) + {last};
      assert last !in init;
    }
  }

  lemma SizeWithOne<T>(s: set<T>, x: T)
    ensures |s + {x}| == if x in s then |s| else |s| + 1
    ensures |s - {x}| == if x in s then |s| - 1 else |s|
  {
    if x in s {
      assert s + {x} == s;
    } else {
      assert s - {x} == s;
    }
  }
}
