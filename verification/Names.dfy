/** Identifiers and their sort order.

    Every identifier the controller sorts (node names, workload identifiers,
    node IDs) is a natural number here: the number stands for the string's rank
    among the finitely many strings in play, so that comparing numbers is
    comparing strings. */
module Names {

  type Name = nat

  function Elements<T>(s: seq<T>): set<T>
  {
    set x | x in s
  }

  predicate Distinct<T(==)>(s: seq<T>) {
    forall i, j :: 0 <= i < j < |s| ==> s[i] != s[j]
  }

  ghost predicate Ascending(s: seq<Name>) {
    forall i, j :: 0 <= i < j < |s| ==> s[i] < s[j]
  }

  ghost predicate IsLeast(m: Name, s: set<Name>) {
    m in s && forall y :: y in s ==> m <= y
  }

  lemma {:induction false} LeastExists(s: set<Name>)
    requires s != {}
    ensures exists m :: IsLeast(m, s)
  {
    var x :| x in s;
    var rest := s - {x};
    assert s == rest + {x};
    if rest == {} {
      assert IsLeast(x, s);
    } else {
      LeastExists(rest);
      var m :| IsLeast(m, rest);
      assert IsLeast(if x < m then x else m, s);
    }
  }

  function Least(s: set<Name>): (m: Name)
    requires s != {}
    ensures m in s && forall y :: y in s ==> m <= y
  {
    LeastExists(s);
    assert exists m :: m in s && forall y :: y in s ==> m <= y by {
      var m :| IsLeast(m, s);
    }
    var m :| m in s && forall y :: y in s ==> m <= y;
    m
  }

  /** `sorted` over a set of identifiers. */
  function SortedSeq(s: set<Name>): seq<Name> {
    if s == {} then [] else
      var m := Least(s);
      [m] + SortedSeq(s - {m})
  }

  lemma AscendingCons(m: Name, rest: seq<Name>)
    requires Ascending(rest) && forall i :: 0 <= i < |rest| ==> m < rest[i]
    ensures Ascending([m] + rest)
  {
  }

  lemma {:induction false} SortedSeqSorts(s: set<Name>)
    ensures Ascending(SortedSeq(s)) && |SortedSeq(s)| == |s|
    ensures forall x :: x in SortedSeq(s) <==> x in s
  {
    if s != {} {
      var m := Least(s);
      var rest := SortedSeq(s - {m});
      SortedSeqSorts(s - {m});
      forall i | 0 <= i < |rest| ensures m < rest[i] {
        assert rest[i] in s - {m};
      }
      AscendingCons(m, rest);
    }
  }

  function Reverse<T>(s: seq<T>): (r: seq<T>)
    ensures |r| == |s|
    ensures forall i :: 0 <= i < |s| ==> r[i] == s[|s| - 1 - i]
  {
    if s == [] then [] else Reverse(s[1..]) + [s[0]]
  }

  /** The elements of `s` in order, each at its first position only. */
  function FirstOccurrences<T(==)>(s: seq<T>): seq<T> {
    if s == [] then [] else
      var last := |s| - 1;
      var r := FirstOccurrences(s[..last]);
      if s[last] in r then r else r + [s[last]]
  }

  lemma {:induction false} FirstOccurrencesKeepEach<T(!new)>(s: seq<T>)
    ensures Distinct(FirstOccurrences(s))
    ensures forall x :: x in FirstOccurrences(s) <==> x in s
  {
    if s != [] {
      FirstOccurrencesKeepEach(s[..|s| - 1]);
      assert s == s[..|s| - 1] + [s[|s| - 1]];
    }
  }

  lemma {:induction false} SubsetOfSameSize<T>(a: set<T>, b: set<T>)
    requires a <= b
    ensures |a| <= |b| && (|a| == |b| ==> a == b)
  {
    if a != {} {
      var x :| x in a;
      SubsetOfSameSize(a - {x}, b - {x});
    }
  }
}
