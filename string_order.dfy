/** The order in which the store returns the items of one partition: ascending by
    sort key, comparing strings character by character (a proper prefix comes first). */
module StringOrder {

  /** Strict lexicographic order on strings. */
  predicate Less(a: string, b: string)
  {
    if a == [] then b != []
    else if b == [] then false
    else if a[0] != b[0] then a[0] < b[0]
    else Less(a[1..], b[1..])
  }

  lemma {:induction false} LessIrreflexive(a: string)
    ensures !Less(a, a)
  {
    if a != [] {
      LessIrreflexive(a[1..]);
    }
  }

  /** Any two distinct strings are ordered one way or the other. */
  lemma {:induction false} LessTotal(a: string, b: string)
    ensures a == b || Less(a, b) || Less(b, a)
  {
    if a != [] && b != [] && a[0] == b[0] {
      LessTotal(a[1..], b[1..]);
      assert a == [a[0]] + a[1..];
      assert b == [b[0]] + b[1..];
    }
  }

  lemma {:induction false} LessTransitive(a: string, b: string, c: string)
    requires Less(a, b) && Less(b, c)
    ensures Less(a, c)
  {
    if a != [] && a[0] == b[0] && b[0] == c[0] {
      LessTransitive(a[1..], b[1..], c[1..]);
    }
  }

  /** `m` is a least element of `s`. */
  predicate IsLeast(m: string, s: set<string>)
  {
    m in s && forall x :: x in s ==> !Less(x, m)
  }

  lemma {:induction false} LeastExists(s: set<string>)
    requires s != {}
    ensures exists m :: IsLeast(m, s)
  {
    var x :| x in s;
    if s == {x} {
      LessIrreflexive(x);
      assert IsLeast(x, s);
    } else {
      LeastExists(s - {x});
      var m :| IsLeast(m, s - {x});
      if Less(x, m) {
        forall y | y in s
          ensures !Less(y, x)
        {
          if y == x {
            LessIrreflexive(x);
          } else if Less(y, x) {
            LessTransitive(y, x, m);
          }
        }
        assert IsLeast(x, s);
      } else {
        assert IsLeast(m, s);
      }
    }
  }

  lemma LeastUnique(m1: string, m2: string, s: set<string>)
    requires IsLeast(m1, s) && IsLeast(m2, s)
    ensures m1 == m2
  {
    LessTotal(m1, m2);
  }

  /** A least element comes strictly before every other element. */
  lemma LeastBelowOthers(m: string, s: set<string>)
    requires IsLeast(m, s)
    ensures forall x :: x in s && x != m ==> Less(m, x)
  {
    forall x | x in s && x != m
      ensures Less(m, x)
    {
      LessTotal(m, x);
    }
  }

  predicate Increasing(s: seq<string>)
  {
    forall i, j :: 0 <= i < j < |s| ==> Less(s[i], s[j])
  }

  /** The elements of `ids` in ascending order, each once. */
  ghost function SortedStrings(ids: set<string>): (s: seq<string>)
    ensures Increasing(s)
    ensures forall x :: x in s <==> x in ids
    decreases ids
  {
    if ids == {} then []
    else
      LeastExists(ids);
      var m :| IsLeast(m, ids);
      LeastBelowOthers(m, ids);
      [m] + SortedStrings(ids - {m})
  }

  /** Unfolds SortedStrings one step at whichever least element one holds. */
  lemma SortedStringsStep(m: string, ids: set<string>)
    requires IsLeast(m, ids)
    ensures SortedStrings(ids) == [m] + SortedStrings(ids - {m})
  {
    LeastExists(ids);
    var m' :| IsLeast(m', ids) && SortedStrings(ids) == [m'] + SortedStrings(ids - {m'});
    LeastUnique(m, m', ids);
  }

  /** Listing a set in ascending order one least element at a time: moving the least
      element from the set to the end of what is already listed keeps the whole list. */
  lemma SortedStringsShift(done: seq<string>, m: string, ids: set<string>)
    requires IsLeast(m, ids)
    ensures done + SortedStrings(ids) == (done + [m]) + SortedStrings(ids - {m})
  {
    SortedStringsStep(m, ids);
    var rest := SortedStrings(ids - {m});
    assert done + ([m] + rest) == (done + [m]) + rest;
  }
}
