/** Python's ordering of names and of paths, and `sorted` on names. Python compares strings
    code point by code point, a proper prefix first; `PurePath`s compare by their lists of
    components. */
module NameOrder {

  /** `a <= b` on Python strings. */
  predicate NameLe(a: string, b: string)
    decreases |a|
  {
    a == [] || (b != [] && (a[0] < b[0] || (a[0] == b[0] && NameLe(a[1..], b[1..]))))
  }

  lemma {:induction false} NameLeTotal(a: string, b: string)
    ensures NameLe(a, b) || NameLe(b, a)
    decreases |a|
  {
    if a != [] && b != [] && a[0] == b[0] {
      NameLeTotal(a[1..], b[1..]);
    }
  }

  lemma {:induction false} NameLeTrans(a: string, b: string, c: string)
    requires NameLe(a, b) && NameLe(b, c)
    ensures NameLe(a, c)
    decreases |a|
  {
    if a != [] && a[0] == b[0] && b[0] == c[0] {
      NameLeTrans(a[1..], b[1..], c[1..]);
    }
  }

  lemma {:induction false} NameLeAntisym(a: string, b: string)
    requires NameLe(a, b) && NameLe(b, a)
    ensures a == b
    decreases |a|
  {
    if a != [] {
      NameLeAntisym(a[1..], b[1..]);
      assert a == [a[0]] + a[1..] && b == [b[0]] + b[1..];
    }
  }

  /** Ascending, every pair in order. */
  predicate Ordered(s: seq<string>)
  {
    forall i, j :: 0 <= i < j < |s| ==> NameLe(s[i], s[j])
  }

  /** `x` goes in front of the first name it does not follow. */
  function InsertName(x: string, s: seq<string>): (r: seq<string>)
    ensures multiset(r) == multiset(s) + multiset{x}
  {
    if s == [] then [x]
    else if NameLe(x, s[0]) then [x] + s
    else
      var r := [s[0]] + InsertName(x, s[1..]);
      assert s == [s[0]] + s[1..];
      r
  }

  lemma {:induction false} InsertNameOrdered(x: string, s: seq<string>)
    requires Ordered(s)
    ensures Ordered(InsertName(x, s))
  {
    if s != [] {
      if NameLe(x, s[0]) {
        forall j | 0 < j < |s| ensures NameLe(x, s[j]) {
          NameLeTrans(x, s[0], s[j]);
        }
      } else {
        InsertNameOrdered(x, s[1..]);
        NameLeTotal(x, s[0]);
        var tail := InsertName(x, s[1..]);
        forall y | y in tail ensures NameLe(s[0], y) {
          assert y in multiset(tail);
        }
      }
    }
  }

  /** `sorted(names)`: ascending, and the same names as many times. */
  function SortNames(s: seq<string>): (r: seq<string>)
    ensures Ordered(r)
    ensures multiset(r) == multiset(s)
  {
    if s == [] then []
    else
      var t := SortNames(s[1..]);
      InsertNameOrdered(s[0], t);
      assert s == [s[0]] + s[1..];
      InsertName(s[0], t)
  }

  /** Two ordered arrangements of one multiset begin with the same name. */
  lemma SameFirst(a: seq<string>, b: seq<string>)
    requires Ordered(a) && Ordered(b) && multiset(a) == multiset(b) && a != []
    ensures b != [] && a[0] == b[0]
  {
    assert a[0] in multiset(b);
    var i :| 0 <= i < |b| && b[i] == a[0];
    assert b[0] in multiset(a);
    var j :| 0 <= j < |a| && a[j] == b[0];
    if i == 0 || j == 0 {
      NameLeTotal(a[0], b[0]);
    }
    assert NameLe(b[0], a[0]) && NameLe(a[0], b[0]);
    NameLeAntisym(a[0], b[0]);
  }

  lemma DropFirst(a: seq<string>)
    requires a != []
    ensures multiset(a[1..]) == multiset(a) - multiset{a[0]}
  {
    assert a == [a[0]] + a[1..];
  }

  /** There is one ordered arrangement of a multiset of names: `sorted` does not depend on
      the order it is given the names in. */
  lemma {:induction false} OrderedUnique(a: seq<string>, b: seq<string>)
    requires Ordered(a) && Ordered(b) && multiset(a) == multiset(b)
    ensures a == b
    decreases |a|
  {
    if a != [] {
      SameFirst(a, b);
      DropFirst(a);
      DropFirst(b);
      OrderedUnique(a[1..], b[1..]);
      assert a == [a[0]] + a[1..] && b == [b[0]] + b[1..];
    } else {
      assert |b| == |multiset(b)| == 0;
    }
  }

  /** `sorted` of a rearrangement is the same list. */
  lemma SortNamesOrderFree(s: seq<string>, t: seq<string>)
    requires multiset(s) == multiset(t)
    ensures SortNames(s) == SortNames(t)
  {
    OrderedUnique(SortNames(s), SortNames(t));
  }

  /** `p <= q` on `PurePath`s: their component lists compared as Python lists. */
  predicate PathLe(p: seq<string>, q: seq<string>)
    decreases |p|
  {
    p == [] || (q != [] && (if p[0] == q[0] then PathLe(p[1..], q[1..]) else NameLe(p[0], q[0])))
  }

  /** Paths in one directory are ordered as their names. */
  lemma {:induction false} PathLeSameParent(parent: seq<string>, a: string, b: string)
    ensures PathLe(parent + [a], parent + [b]) <==> NameLe(a, b)
    decreases |parent|
  {
    if parent == [] {
      assert ([] + [a])[1..] == [] && [] + [a] == [a] && [] + [b] == [b];
      if a == b {
        NameLeTotal(a, b);
      }
    } else {
      assert (parent + [a])[1..] == parent[1..] + [a];
      assert (parent + [b])[1..] == parent[1..] + [b];
      PathLeSameParent(parent[1..], a, b);
    }
  }
}
