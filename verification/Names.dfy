/** Names in the order Python sorts strings: by code point, shorter first. */
module Names {

  predicate Less(a: string, b: string) {
    b != "" && (a == "" || a[0] < b[0] || (a[0] == b[0] && Less(a[1..], b[1..])))
  }

  lemma {:induction false} LessTransitive(a: string, b: string, c: string)
    requires Less(a, b) && Less(b, c)
    ensures Less(a, c)
  {
    if a != "" && a[0] == b[0] && b[0] == c[0] { LessTransitive(a[1..], b[1..], c[1..]); }
  }

  lemma {:induction false} LessTotal(a: string, b: string)
    ensures a == b || Less(a, b) || Less(b, a)
  {
    if a != "" && b != "" && a[0] == b[0] {
      LessTotal(a[1..], b[1..]);
      assert a == [a[0]] + a[1..] && b == [b[0]] + b[1..];
    }
  }

  ghost predicate First(x: string, s: set<string>) { x in s && forall y :: y in s ==> y == x || Less(x, y) }

  predicate Sorted(r: seq<string>) { forall i, j :: 0 <= i < j < |r| ==> Less(r[i], r[j]) }

  /** The first name of a non-empty set. */
  method FindFirst(s: set<string>) returns (x: string)
    requires s != {}
    ensures First(x, s)
  {
    x :| x in s;
    var seen, left := {x}, s - {x};
    while left != {}
      invariant left + seen == s && left !! seen && First(x, seen)
      decreases left
    {
      var y :| y in left;
      LessTotal(x, y);
      if Less(y, x) {
        forall z | z in seen && z != x ensures Less(y, z) { LessTransitive(y, x, z); }
        x := y;
      }
      seen, left := seen + {y}, left - {y};
    }
    assert seen == s;
  }

  /** `sorted` of a set. */
  method Sort(s: set<string>) returns (r: seq<string>)
    ensures Sorted(r) && forall x :: x in r <==> x in s
  {
    r := [];
    var left := s;
    while left != {}
      invariant left <= s && Sorted(r)
      invariant forall x :: x in r <==> x in s && x !in left
      invariant forall x, y :: x in r && y in left ==> Less(x, y)
      decreases left
    {
      var x := FindFirst(left);
      r := r + [x];
      left := left - {x};
    }
  }
}
