/** Names in lexicographic order, and sequences of them without repetition. */
module Names {

  /** Lexicographic order by code points. */
  predicate Before(a: string, b: string)
    decreases |a|
  {
    if b == "" then false
    else if a == "" then true
    else if a[0] != b[0] then a[0] < b[0]
    else Before(a[1..], b[1..])
  }

  predicate AtMost(a: string, b: string) {
    a == b || Before(a, b)
  }

  lemma {:induction false} Trichotomy(a: string, b: string)
    ensures a == b ==> !Before(a, b)
    ensures a != b ==> (Before(a, b) <==> !Before(b, a))
    decreases |a|
  {
    if a != "" && b != "" && a[0] == b[0] {
      Trichotomy(a[1..], b[1..]);
      assert a == [a[0]] + a[1..] && b == [b[0]] + b[1..];
    }
  }

  lemma {:induction false} BeforeTransitive(a: string, b: string, c: string)
    requires Before(a, b) && Before(b, c)
    ensures Before(a, c)
    decreases |a|
  {
    if a != "" && a[0] == b[0] && b[0] == c[0] {
      BeforeTransitive(a[1..], b[1..], c[1..]);
    }
  }

  lemma AtMostTransitive(a: string, b: string, c: string)
    requires AtMost(a, b) && AtMost(b, c)
    ensures AtMost(a, c)
  {
    if a != b && b != c {
      BeforeTransitive(a, b, c);
    }
  }

  predicate Sorted(s: seq<string>) {
    forall i, j | 0 <= i < j < |s| :: AtMost(s[i], s[j])
  }

  function Elements<T>(s: seq<T>): set<T> {
    set x | x in s
  }

  /** The elements of `s`, each of them once, are the elements of `set`. */
  ghost predicate Lists<T(!new)>(s: seq<T>, elements: set<T>) {
    multiset(s) == multiset(elements)
  }

  lemma ListsElements<T(!new)>(s: seq<T>, elements: set<T>)
    requires Lists(s, elements)
    ensures Elements(s) == elements && |s| == |elements|
    ensures forall x :: x in s <==> x in elements
    ensures forall i, j | 0 <= i < j < |s| :: s[i] != s[j]
  {
    forall x ensures x in s <==> x in elements {
      assert x in multiset(s) <==> x in multiset(elements);
    }
    assert Elements(s) == elements;
    assert |multiset(s)| == |s| && |multiset(elements)| == |elements|;
    forall i, j | 0 <= i < j < |s| ensures s[i] != s[j] {
      assert s == s[..i] + [s[i]] + s[i + 1..j] + [s[j]] + s[j + 1..];
      assert multiset(s)[s[i]] == multiset(elements)[s[i]] <= 1;
    }
  }

  lemma ListsAppend<T(!new)>(s: seq<T>, elements: set<T>, x: T)
    requires Lists(s, elements) && x !in elements
    ensures Lists(s + [x], elements + {x})
  {
  }

  lemma ListsTail<T(!new)>(s: seq<T>, elements: set<T>)
    requires Lists(s, elements) && s != []
    ensures s[0] in elements && Lists(s[1..], elements - {s[0]})
  {
    assert s == [s[0]] + s[1..];
    assert s[0] in multiset(s) && s[0] in multiset(elements);
    forall x ensures multiset(s[1..])[x] == multiset(elements - {s[0]})[x] {
      assert multiset(s)[x] == multiset(elements)[x];
      assert multiset(s)[x] == multiset([s[0]])[x] + multiset(s[1..])[x];
    }
  }

  function Insert(s: seq<string>, x: string): (r: seq<string>)
    requires Sorted(s)
    ensures Sorted(r) && multiset(r) == multiset(s) + multiset{x}
    decreases |s|
  {
    if s == [] then [x]
    else
      var n := |s| - 1;
      assert s == s[..n] + [s[n]];
      Trichotomy(x, s[n]);
      if AtMost(s[n], x) then
        assert forall i | 0 <= i < n :: AtMost(s[i], s[n]);
        InsertLast(s, x);
        s + [x]
      else
        var head := Insert(s[..n], x);
        InsertBefore(s[..n], s[n], x, head);
        head + [s[n]]
  }

  lemma InsertLast(s: seq<string>, x: string)
    requires Sorted(s) && s != [] && AtMost(s[|s| - 1], x)
    ensures Sorted(s + [x])
  {
    forall i | 0 <= i < |s| ensures AtMost(s[i], x) {
      AtMostTransitive(s[i], s[|s| - 1], x);
    }
  }

  lemma InsertBefore(s: seq<string>, last: string, x: string, head: seq<string>)
    requires Sorted(s + [last]) && Before(x, last) && Sorted(head) && multiset(head) == multiset(s) + multiset{x}
    ensures Sorted(head + [last])
  {
    forall i | 0 <= i < |head| ensures AtMost(head[i], last) {
      assert head[i] in multiset(head);
      if head[i] != x {
        assert head[i] in s;
        var k :| 0 <= k < |s| && s[k] == head[i];
        assert (s + [last])[k] == head[i] && (s + [last])[|s|] == last;
      }
    }
  }

  function Sort(s: seq<string>): (r: seq<string>)
    ensures Sorted(r) && multiset(r) == multiset(s)
    decreases |s|
  {
    if s == [] then []
    else
      assert s == s[..|s| - 1] + [s[|s| - 1]];
      Insert(Sort(s[..|s| - 1]), s[|s| - 1])
  }

  predicate IsLeast(s: set<string>, x: string) {
    x in s && forall y <- s :: AtMost(x, y)
  }

  /** The first of the names of a set. */
  function Least(s: set<string>): (x: string)
    requires s != {}
    ensures IsLeast(s, x)
  {
    HasLeast(s);
    AtMostAntisymmetric(s);
    var x :| IsLeast(s, x);
    x
  }

  lemma AtMostAntisymmetric(s: set<string>)
    ensures forall x, y | x in s && y in s && AtMost(x, y) && AtMost(y, x) :: x == y
  {
    forall x, y | x in s && y in s && AtMost(x, y) && AtMost(y, x) ensures x == y {
      Trichotomy(x, y);
    }
  }

  lemma {:induction false} HasLeast(s: set<string>)
    requires s != {}
    ensures exists x :: IsLeast(s, x)
    decreases |s|
  {
    var x :| x in s;
    var rest := s - {x};
    if rest == {} {
      assert s == {x} && IsLeast(s, x);
    } else {
      HasLeast(rest);
      var least :| IsLeast(rest, least);
      Trichotomy(x, least);
      if Before(x, least) {
        forall y <- s ensures AtMost(x, y) {
          if y != x {
            AtMostTransitive(x, least, y);
          }
        }
        assert IsLeast(s, x);
      } else {
        assert IsLeast(s, least);
      }
    }
  }

  lemma LeastFirst(s: set<string>, x: string, rest: seq<string>)
    requires IsLeast(s, x) && Sorted(rest) && multiset(rest) == multiset(s - {x})
    ensures Sorted([x] + rest)
  {
    ListsElements(rest, s - {x});
    forall i | 0 <= i < |rest| ensures AtMost(x, rest[i]) {
      assert rest[i] in s - {x};
    }
  }

  /** The names of a set in order. */
  function InOrder(s: set<string>): (r: seq<string>)
    ensures Sorted(r) && multiset(r) == multiset(s)
    decreases |s|
  {
    if s == {} then []
    else
      var x := Least(s);
      var rest := InOrder(s - {x});
      assert multiset(s) == multiset(s - {x}) + multiset{x};
      LeastFirst(s, x, rest);
      [x] + rest
  }

  lemma ListsInOrder(names: set<string>)
    ensures Lists(InOrder(names), names)
  {
  }
}
