/** Sequences without repetition and the sizes of finite sets. */
module Collections {
  ghost function SetOf<T>(s: seq<T>): set<T> { set x | x in s }

  ghost predicate NoRepeats<T>(s: seq<T>) {
    forall i, j :: 0 <= i < j < |s| ==> s[i] != s[j]
  }

  lemma {:induction false} DistinctFits<T>(s: seq<T>, universe: set<T>)
    requires NoRepeats(s) && forall x :: x in s ==> x in universe
    ensures |s| <= |universe|
  {
    if s != [] {
      var x := s[|s| - 1];
      var init := s[..|s| - 1];
      forall y | y in init ensures y in universe - {x} {
        var i :| 0 <= i < |init| && init[i] == y;
        assert s[i] == y;
      }
      DistinctFits(init, universe - {x});
    }
  }

  lemma {:induction false} DistinctCovers<T>(s: seq<T>, names: seq<T>)
    requires NoRepeats(s) && (forall x :: x in s ==> x in names) && |s| >= |names|
    ensures forall x :: x in names ==> x in s
  {
    forall x | x in names ensures x in s {
      if x !in s {
        var universe := set y | y in names;
        DistinctFits(s, universe - {x});
        SetOfSeq(names);
      }
    }
  }

  lemma {:induction false} SetOfSeq<T>(s: seq<T>)
    ensures |set x | x in s| <= |s|
  {
    if s != [] {
      SetOfSeq(s[1..]);
      assert (set x | x in s) == {s[0]} + (set x | x in s[1..]);
    }
  }

  lemma {:induction false} SubsetSize<T>(a: set<T>, b: set<T>)
    requires a <= b
    ensures |a| <= |b|
  {
    if a != {} {
      var x :| x in a;
      SubsetSize(a - {x}, b - {x});
    }
  }
}
