/** The order of text, and what `[...new Set(list)].sort()` makes of a list. */
module Texts {

  predicate TextLess(a: string, b: string) {
    if a == "" then b != ""
    else b != "" && (a[0] < b[0] || (a[0] == b[0] && TextLess(a[1..], b[1..])))
  }

  lemma {:induction false} TextLessOrders(a: string, b: string, c: string)
    ensures TextLess(a, b) && TextLess(b, c) ==> TextLess(a, c)
    ensures TextLess(a, b) ==> !TextLess(b, a)
    ensures !TextLess(a, a)
  {
    if a != "" {
      TextLessOrders(a[1..], if b == "" then b else b[1..], if c == "" then c else c[1..]);
    }
  }

  lemma {:induction false} TextLessTotal(a: string, b: string)
    ensures TextLess(a, b) || TextLess(b, a) || a == b
  {
    if a != "" && b != "" {
      TextLessTotal(a[1..], b[1..]);
      assert a == [a[0]] + a[1..] && b == [b[0]] + b[1..];
    }
  }

  /** Strictly increasing, neighbour by neighbour. */
  predicate Increasing(s: seq<string>) {
    |s| < 2 || (TextLess(s[0], s[1]) && Increasing(s[1..]))
  }

  function Insert(x: string, s: seq<string>): (r: seq<string>)
    ensures |r| > 0 && (r[0] == x || (s != [] && r[0] == s[0]))
  {
    if s == [] || TextLess(x, s[0]) then [x] + s
    else if x == s[0] then s
    else [s[0]] + Insert(x, s[1..])
  }

  function SortedSet(s: seq<string>): seq<string> {
    if s == [] then [] else Insert(s[0], SortedSet(s[1..]))
  }

  lemma {:induction false} InsertKeeps(x: string, s: seq<string>)
    requires Increasing(s)
    ensures Increasing(Insert(x, s)) && forall t :: t in Insert(x, s) <==> t == x || t in s
  {
    if s != [] && !TextLess(x, s[0]) && x != s[0] {
      InsertKeeps(x, s[1..]);
      TextLessTotal(x, s[0]);
      assert s == [s[0]] + s[1..];
      var r := Insert(x, s);
      assert r[1..] == Insert(x, s[1..]);
    }
  }

  lemma {:induction false} SortedSetIs(s: seq<string>)
    ensures Increasing(SortedSet(s)) && forall t :: t in SortedSet(s) <==> t in s
  {
    if s != [] {
      SortedSetIs(s[1..]);
      InsertKeeps(s[0], SortedSet(s[1..]));
      assert s == [s[0]] + s[1..];
    }
  }

  lemma {:induction false} SortedStays(s: seq<string>)
    requires Increasing(s)
    ensures SortedSet(s) == s
  {
    if s != [] {
      SortedStays(s[1..]);
      assert s == [s[0]] + s[1..];
    }
  }

  lemma SortedSetIdempotent(s: seq<string>)
    ensures SortedSet(SortedSet(s)) == SortedSet(s)
  {
    SortedSetIs(s);
    SortedStays(SortedSet(s));
  }

  /** Nothing in an increasing list comes before its head. */
  lemma {:induction false} HeadLeast(s: seq<string>, x: string)
    requires Increasing(s) && x in s
    ensures x == s[0] || TextLess(s[0], x)
  {
    if x != s[0] {
      HeadLeast(s[1..], x);
      TextLessOrders(s[0], s[1], x);
    }
  }

  lemma {:induction false} IncreasingDistinct(s: seq<string>)
    requires Increasing(s)
    ensures forall i, j :: 0 <= i < j < |s| ==> s[i] != s[j]
  {
    if s != [] {
      IncreasingDistinct(s[1..]);
      forall j | 0 < j < |s|
        ensures s[0] != s[j]
      {
        assert s[1..][j - 1] == s[j];
        HeadLeast(s[1..], s[j]);
        TextLessOrders(s[0], s[1], s[j]);
        TextLessOrders(s[j], s[j], s[j]);
      }
    }
  }

  /** Increasing lists of the same elements are the same list. */
  lemma {:induction false} IncreasingUnique(s: seq<string>, t: seq<string>)
    requires Increasing(s) && Increasing(t) && forall x :: x in s <==> x in t
    ensures s == t
  {
    if s == [] {
      assert forall i :: 0 <= i < |t| ==> t[i] in t;
    } else {
      assert s[0] in t;
      assert t[0] in s;
      HeadLeast(s, t[0]);
      HeadLeast(t, s[0]);
      TextLessOrders(s[0], t[0], s[0]);
      TailWithout(s);
      TailWithout(t);
      IncreasingUnique(s[1..], t[1..]);
      assert s == [s[0]] + s[1..] && t == [t[0]] + t[1..];
    }
  }

  lemma TailWithout(s: seq<string>)
    requires Increasing(s) && s != []
    ensures forall x :: x in s[1..] <==> x in s && x != s[0]
  {
    IncreasingDistinct(s);
    assert s == [s[0]] + s[1..];
    forall x | x in s[1..]
      ensures x != s[0]
    {
      var i :| 0 <= i < |s[1..]| && s[1..][i] == x;
      assert s[i + 1] == x;
    }
  }

  /** Two lists come to the same exactly if they hold the same elements. */
  lemma SameSortedSet(s: seq<string>, t: seq<string>)
    ensures SortedSet(s) == SortedSet(t) <==> forall x :: x in s <==> x in t
  {
    SortedSetIs(s);
    SortedSetIs(t);
    if forall x :: x in s <==> x in t {
      IncreasingUnique(SortedSet(s), SortedSet(t));
    }
  }
}
