/**
 * Date keys are `yyyy-mm-dd` strings. Both programs compare them as strings
 * (`date >= start`, `a.date < b.date`, `a.localeCompare(b)`), which for this
 * fixed-width, zero-padded format is the lexicographic order on characters.
 * Dafny's `<=` on sequences is the prefix order, so the lexicographic order
 * is defined here and shown to be a total order.
 */
module DateKeys {

  /**
   * `a <= b` in lexicographic character order, as JavaScript compares
   * strings: a prefix sorts first, and the first characters decide.
   */
  predicate Le(a: string, b: string): (r: bool)
    decreases |a|
    ensures a <= b ==> r
    ensures r && |a| > 0 ==> |b| > 0 && a[0] <= b[0]
  {
    |a| == 0 || (|b| > 0 && (a[0] < b[0] || (a[0] == b[0] && Le(a[1..], b[1..]))))
  }

  predicate Lt(a: string, b: string) {
    Le(a, b) && a != b
  }

  /** The inclusive range test `date >= start && date <= end`; only a range that is not inverted holds a day. */
  predicate InRange(date: string, start: string, end: string): (r: bool)
    ensures r <==> Le(start, date) && Le(date, end)
    ensures r ==> Le(start, end)
  {
    if Le(start, date) && Le(date, end) then
      LeTransitive(start, date, end);
      true
    else false
  }

  lemma {:induction false} LeReflexive(a: string)
    ensures Le(a, a)
  {
    if |a| > 0 {
      LeReflexive(a[1..]);
    }
  }

  lemma {:induction false} LeAntisymmetric(a: string, b: string)
    requires Le(a, b) && Le(b, a)
    ensures a == b
  {
    if |a| > 0 {
      LeAntisymmetric(a[1..], b[1..]);
      assert a == [a[0]] + a[1..] && b == [b[0]] + b[1..];
    }
  }

  lemma {:induction false} LeTransitive(a: string, b: string, c: string)
    requires Le(a, b) && Le(b, c)
    ensures Le(a, c)
  {
    if |a| > 0 && a[0] == b[0] && b[0] == c[0] {
      LeTransitive(a[1..], b[1..], c[1..]);
    }
  }

  lemma {:induction false} LeTotal(a: string, b: string)
    ensures Le(a, b) || Le(b, a)
  {
    if |a| > 0 && |b| > 0 && a[0] == b[0] {
      LeTotal(a[1..], b[1..]);
    }
  }

  lemma LeAntisymmetricAll()
    ensures forall a, b :: Le(a, b) && Le(b, a) ==> a == b
  {
    forall a, b | Le(a, b) && Le(b, a)
      ensures a == b
    {
      LeAntisymmetric(a, b);
    }
  }

  predicate IsLeast(m: string, s: set<string>) {
    m in s && forall x :: x in s ==> Le(m, x)
  }

  /** Every finite non-empty set of keys has a least element. */
  lemma {:induction false} LeastExists(s: set<string>)
    requires s != {}
    ensures exists m :: IsLeast(m, s)
    decreases |s|
  {
    var y :| y in s;
    LeReflexive(y);
    if s - {y} == {} {
      assert s == {y};
      assert IsLeast(y, s);
    } else {
      LeastExists(s - {y});
      var m :| IsLeast(m, s - {y});
      LeTotal(m, y);
      if Le(m, y) {
        assert IsLeast(m, s);
      } else {
        forall x | x in s
          ensures Le(y, x)
        {
          if x != y {
            LeTransitive(y, m, x);
          }
        }
        assert IsLeast(y, s);
      }
    }
  }

  /**
   * The keys of `s` in ascending order: what sorting the filtered keys with
   * `localeCompare` yields for keys of this format.
   */
  function SortedAscending(s: set<string>): (r: seq<string>)
    ensures |r| == |s|
    ensures forall d :: d in r <==> d in s
    ensures forall i, j :: 0 <= i < j < |r| ==> Lt(r[i], r[j])
    decreases |s|
  {
    if s == {} then []
    else
      LeastExists(s);
      LeAntisymmetricAll();
      var m :| IsLeast(m, s);
      [m] + SortedAscending(s - {m})
  }
}
