/** Counting facts about sets and sequences. */
module Collections {

  function Elements<T>(s: seq<T>): set<T> {
    set x | x in s
  }

  ghost predicate Distinct<T>(s: seq<T>) {
    forall i, j :: 0 <= i < j < |s| ==> s[i] != s[j]
  }

  lemma {:induction false} SubsetSize<T>(a: set<T>, b: set<T>)
    requires a <= b
    ensures |a| <= |b|
  {
    if a != {} {
      var x :| x in a;
      SubsetSize(a - {x}, b - {x});
    }
  }

  lemma {:induction false} ElementsSize<T>(s: seq<T>)
    ensures |Elements(s)| <= |s|
    ensures Distinct(s) ==> |Elements(s)| == |s|
  {
    if s != [] {
      var n := |s| - 1;
      ElementsSize(s[..n]);
      assert Elements(s) == Elements(s[..n]) + {s[n]};
    }
  }

  /** As many distinct elements as a set has, all from it, are all it has. */
  lemma AllTaken<T>(a: set<T>, s: seq<T>)
    requires Distinct(s) && Elements(s) <= a && |s| >= |a|
    ensures Elements(s) == a
  {
    ElementsSize(s);
    if Elements(s) != a {
      var x :| x in a && x !in Elements(s);
      SubsetSize(Elements(s) + {x}, a);
    }
  }
}
