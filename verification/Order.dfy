/** Code-point order on strings and `sorted`, as Python applies them to dictionary keys and ids. */
module Order {
  import opened Prelude

  predicate Less(a: string, b: string) {
    b != [] && (a == [] || a[0] < b[0] || (a[0] == b[0] && Less(a[1..], b[1..])))
  }

  lemma {:induction false} LessTotal(a: string, b: string)
    ensures Less(a, b) || Less(b, a) || a == b
    ensures !(Less(a, b) && Less(b, a))
    ensures !Less(a, a)
    decreases |a|
  {
    if a != [] {
      LessTotal(a[1..], a[1..]);
      if b != [] && a[0] == b[0] {
        LessTotal(a[1..], b[1..]);
        if a[1..] == b[1..] {
          assert a == [a[0]] + a[1..] == b;
        }
      }
    }
  }

  /** Python's string order: a proper prefix comes first, otherwise the first different character decides. */
  ghost predicate Before(a: string, b: string) {
    a < b || exists i :: FirstDifference(a, b, i) && a[i] < b[i]
  }

  ghost predicate FirstDifference(a: string, b: string, i: int) {
    0 <= i < |a| && i < |b| && a[..i] == b[..i] && a[i] != b[i]
  }

  lemma {:induction false} LessIsBefore(a: string, b: string)
    ensures Less(a, b) <==> Before(a, b)
  {
    if a != [] && b != [] {
      if a[0] == b[0] {
        LessIsBefore(a[1..], b[1..]);
        BeforeTail(a, b);
      } else {
        assert FirstDifference(a, b, 0);
      }
    }
  }

  lemma BeforeTail(a: string, b: string)
    requires a != [] && b != [] && a[0] == b[0]
    ensures Before(a, b) <==> Before(a[1..], b[1..])
  {
    var s, t := a[1..], b[1..];
    assert a == [a[0]] + s && b == [b[0]] + t;
    if i :| FirstDifference(a, b, i) && a[i] < b[i] {
      assert a[..i][1..] == s[..i - 1] && b[..i][1..] == t[..i - 1];
      assert FirstDifference(s, t, i - 1);
    }
    if i :| FirstDifference(s, t, i) && s[i] < t[i] {
      assert a[..i + 1] == [a[0]] + s[..i] && b[..i + 1] == [b[0]] + t[..i];
      assert FirstDifference(a, b, i + 1);
    }
  }

  lemma {:induction false} LessTransitive(a: string, b: string, c: string)
    requires Less(a, b) && Less(b, c)
    ensures Less(a, c)
  {
    if a != [] && a[0] == b[0] == c[0] {
      LessTransitive(a[1..], b[1..], c[1..]);
    }
  }

  /** Strictly increasing, hence without duplicates. */
  predicate Sorted(s: seq<string>) {
    forall i, j :: 0 <= i < j < |s| ==> Less(s[i], s[j])
  }

  function Insert(x: string, s: seq<string>): (r: seq<string>) {
    if s == [] || Less(x, s[0]) then [x] + s else [s[0]] + Insert(x, s[1..])
  }

  function Sort(s: seq<string>): (r: seq<string>) {
    if s == [] then [] else Insert(s[0], Sort(s[1..]))
  }

  lemma {:induction false} InsertSorted(x: string, s: seq<string>)
    requires Sorted(s) && x !in s
    ensures Sorted(Insert(x, s))
    ensures Elements(Insert(x, s)) == Elements(s) + {x}
  {
    if s == [] {
    } else if Less(x, s[0]) {
      forall j | 0 < j < |s| ensures Less(x, s[j]) {
        LessTransitive(x, s[0], s[j]);
      }
    } else {
      LessTotal(x, s[0]);
      var t := Insert(x, s[1..]);
      InsertSorted(x, s[1..]);
      assert s == [s[0]] + s[1..];
      forall j | 0 <= j < |t| ensures Less(s[0], t[j]) {
        assert t[j] in Elements(t);
      }
    }
  }

  /** `sorted` on a duplicate-free list: increasing, with the same elements. */
  lemma {:induction false} SortSorts(s: seq<string>)
    requires Distinct(s)
    ensures Sorted(Sort(s)) && Elements(Sort(s)) == Elements(s)
  {
    if s != [] {
      SortSorts(s[1..]);
      assert s == [s[0]] + s[1..];
      assert s[0] !in Elements(s[1..]);
      InsertSorted(s[0], Sort(s[1..]));
    }
  }

  lemma {:induction false} SortedUnique(s: seq<string>, t: seq<string>)
    requires Sorted(s) && Sorted(t) && Elements(s) == Elements(t)
    ensures s == t
  {
    if s == [] {
      assert forall x :: x in t ==> x in Elements(t);
    } else {
      assert s[0] in Elements(s);
      assert t != [] && t[0] in Elements(s);
      if s[0] != t[0] {
        LessTotal(s[0], t[0]);
      }
      assert forall i :: 1 <= i < |s| ==> Less(s[0], s[i]);
      assert forall i :: 1 <= i < |t| ==> Less(t[0], t[i]);
      LessTotal(s[0], s[0]);
      assert Elements(s[1..]) == Elements(s) - {s[0]};
      assert Elements(t[1..]) == Elements(t) - {t[0]};
      SortedUnique(s[1..], t[1..]);
      assert s == [s[0]] + s[1..];
      assert t == [t[0]] + t[1..];
    }
  }

  /** The sorted enumeration of a finite set of keys. */
  ghost function SortedKeys(keys: set<string>): (r: seq<string>)
    ensures Sorted(r) && Elements(r) == keys
  {
    if keys == {} then []
    else
      var k :| k in keys;
      var rest := SortedKeys(keys - {k});
      assert k !in Elements(rest);
      InsertSorted(k, rest);
      Insert(k, rest)
  }

  /** Each comes before all that follow. */
  ghost predicate InOrder(s: seq<string>) {
    forall i, j :: 0 <= i < j < |s| ==> Before(s[i], s[j])
  }

  lemma SortedInOrder(s: seq<string>)
    ensures Sorted(s) <==> InOrder(s)
  {
    hide Less, Before;
    forall i, j | 0 <= i < j < |s| ensures Less(s[i], s[j]) <==> Before(s[i], s[j]) {
      LessIsBefore(s[i], s[j]);
    }
  }

  /**
   Sorting keeps the elements, puts them in ascending order, and does not depend on the order in which
   they came.
   */
  lemma SortForgetsOrder(s: seq<string>)
    requires Distinct(s)
    ensures Elements(Sort(s)) == Elements(s) && InOrder(Sort(s))
    ensures Sort(s) == SortedKeys(Elements(s))
  {
    hide InOrder, Sorted;
    SortSorts(s);
    SortedUnique(Sort(s), SortedKeys(Elements(s)));
    SortedInOrder(Sort(s));
  }

  lemma SortedDistinct(s: seq<string>)
    requires Sorted(s)
    ensures Distinct(s)
  {
    forall i, j | 0 <= i < j < |s| ensures s[i] != s[j] {
      LessTotal(s[i], s[j]);
    }
  }
}
