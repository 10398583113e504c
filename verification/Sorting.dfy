/** lsort -unique for any total order: strictly sorted, the same elements. */
module Sorting {

  ghost predicate TotalOrder<T(!new)>(le: (T, T) -> bool) {
    && (forall a, b :: le(a, b) || le(b, a))
    && (forall a, b :: le(a, b) && le(b, a) ==> a == b)
    && (forall a, b, c :: le(a, b) && le(b, c) ==> le(a, c))
  }

  ghost predicate StrictlySorted<T>(s: seq<T>, le: (T, T) -> bool) {
    forall i, j :: 0 <= i < j < |s| ==> s[i] != s[j] && le(s[i], s[j])
  }

  function Insert<T(==)>(x: T, s: seq<T>, le: (T, T) -> bool): seq<T> {
    if s == [] then [x]
    else if x == s[0] then s
    else if le(x, s[0]) then [x] + s
    else [s[0]] + Insert(x, s[1..], le)
  }

  function SortUnique<T(==)>(s: seq<T>, le: (T, T) -> bool): seq<T> {
    if s == [] then [] else Insert(s[|s| - 1], SortUnique(s[..|s| - 1], le), le)
  }

  lemma {:induction false} InsertSorts<T(!new)>(x: T, s: seq<T>, le: (T, T) -> bool)
    requires TotalOrder(le) && StrictlySorted(s, le)
    ensures StrictlySorted(Insert(x, s, le), le)
    ensures forall y :: y in Insert(x, s, le) <==> y == x || y in s
  {
    if s != [] {
      assert s == [s[0]] + s[1..];
      assert forall y :: y in s <==> y == s[0] || y in s[1..];
      if x != s[0] && !le(x, s[0]) {
        InsertSorts(x, s[1..], le);
        var t := Insert(x, s[1..], le);
        forall y | y in t
          ensures s[0] != y && le(s[0], y)
        {
          if y != x {
            var i :| 0 <= i < |s[1..]| && s[1..][i] == y;
            assert s[i + 1] == y;
          }
        }
      } else if x != s[0] {
        forall j | 0 <= j < |s|
          ensures x != s[j] && le(x, s[j])
        {
          assert j > 0 ==> le(s[0], s[j]);
        }
      }
    }
  }

  lemma {:induction false} Sorts<T(!new)>(s: seq<T>, le: (T, T) -> bool)
    requires TotalOrder(le)
    ensures StrictlySorted(SortUnique(s, le), le)
    ensures forall y :: y in SortUnique(s, le) <==> y in s
  {
    if s != [] {
      var init := s[..|s| - 1];
      assert s == init + [s[|s| - 1]];
      Sorts(init, le);
      InsertSorts(s[|s| - 1], SortUnique(init, le), le);
    }
  }

  /** Only one strictly sorted sequence has a given set of elements. */
  lemma {:induction false} SortedIsUnique<T(!new)>(s: seq<T>, t: seq<T>, le: (T, T) -> bool)
    requires TotalOrder(le) && StrictlySorted(s, le) && StrictlySorted(t, le)
    requires forall y :: y in s <==> y in t
    ensures s == t
  {
    assert s != [] ==> s[0] in s;
    assert t != [] ==> t[0] in t;
    if s != [] && t != [] {
      SameFirst(s, t, le);
      forall y
        ensures y in s[1..] <==> y in t[1..]
      {
        RestOf(s, y, le);
        RestOf(t, y, le);
      }
      SortedIsUnique(s[1..], t[1..], le);
      assert s == [s[0]] + s[1..] && t == [t[0]] + t[1..];
    }
  }

  lemma SameFirst<T(!new)>(s: seq<T>, t: seq<T>, le: (T, T) -> bool)
    requires TotalOrder(le) && StrictlySorted(s, le) && StrictlySorted(t, le)
    requires s != [] && t != [] && forall y :: y in s <==> y in t
    ensures s[0] == t[0]
  {
    assert s[0] in t && t[0] in s;
    var i :| 0 <= i < |t| && t[i] == s[0];
    var j :| 0 <= j < |s| && s[j] == t[0];
  }

  lemma RestOf<T(!new)>(s: seq<T>, y: T, le: (T, T) -> bool)
    requires StrictlySorted(s, le) && s != []
    ensures y in s[1..] <==> y in s && y != s[0]
  {
    assert s == [s[0]] + s[1..];
    if y in s[1..] {
      var i :| 0 <= i < |s[1..]| && s[1..][i] == y;
      assert s[i + 1] == y;
    }
  }

  /** lsort -decreasing: the order turned round. */
  function Down<T>(le: (T, T) -> bool): (T, T) -> bool {
    (a, b) => le(b, a)
  }

  lemma DownOrder<T(!new)>(le: (T, T) -> bool)
    requires TotalOrder(le)
    ensures TotalOrder(Down(le))
  {
  }

  // The order of strings by character code

  predicate StringLe(a: string, b: string) {
    a == "" || (b != "" && (a[0] < b[0] || (a[0] == b[0] && StringLe(a[1..], b[1..]))))
  }

  lemma {:induction false} StringLeTotal(a: string, b: string)
    ensures StringLe(a, b) || StringLe(b, a)
    ensures StringLe(a, b) && StringLe(b, a) ==> a == b
  {
    if a != "" && b != "" {
      StringLeTotal(a[1..], b[1..]);
      if a[0] == b[0] && a[1..] == b[1..] {
        assert a == [a[0]] + a[1..] && b == [b[0]] + b[1..];
      }
    }
  }

  lemma {:induction false} StringLeTransitive(a: string, b: string, c: string)
    requires StringLe(a, b) && StringLe(b, c)
    ensures StringLe(a, c)
  {
    if a != "" {
      if a[0] == b[0] && b[0] == c[0] {
        StringLeTransitive(a[1..], b[1..], c[1..]);
      }
    }
  }

  lemma StringOrder()
    ensures TotalOrder(StringLe)
  {
    forall a: string, b: string
      ensures StringLe(a, b) || StringLe(b, a)
      ensures StringLe(a, b) && StringLe(b, a) ==> a == b
    {
      StringLeTotal(a, b);
    }
    forall a: string, b: string, c: string | StringLe(a, b) && StringLe(b, c)
      ensures StringLe(a, c)
    {
      StringLeTransitive(a, b, c);
    }
  }

  lemma LeAfter(c: char, a: string, b: string)
    ensures StringLe([c] + a, [c] + b) <==> StringLe(a, b)
  {
    assert ([c] + a)[1..] == a && ([c] + b)[1..] == b;
  }

  /** A common beginning makes no difference to the order. */
  lemma {:induction false} LeAfterAll(p: string, a: string, b: string)
    ensures StringLe(p + a, p + b) <==> StringLe(a, b)
  {
    FirstApart(p, a);
    FirstApart(p, b);
    if p != "" {
      LeAfterAll(p[1..], a, b);
      LeAfter(p[0], p[1..] + a, p[1..] + b);
    }
  }

  lemma FirstApart(p: string, a: string)
    ensures p + a == if p == "" then a else [p[0]] + (p[1..] + a)
  {
  }

  /** The first character in which two strings differ decides, and a beginning comes before the whole. */
  lemma FirstDifference(p: string, a: char, x: string, b: char, y: string)
    requires a < b
    ensures StringLe(p + ([a] + x), p + ([b] + y)) && !StringLe(p + ([b] + y), p + ([a] + x))
    ensures StringLe(p, p + x)
  {
    LeAfterAll(p, [a] + x, [b] + y);
    LeAfterAll(p, [b] + y, [a] + x);
    LeAfterAll(p, "", x);
    assert p + "" == p;
  }
}
