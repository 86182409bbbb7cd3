/** Dotted field paths, their lexicographic order, and sorted duplicate-free lists of them. */
module Paths {
  import opened Strings

  // The path of a field below `prefix`: the first name of a path carries no dot.
  function Extend(prefix: string, name: string): string {
    if prefix == "" then name else prefix + "." + name
  }

  function PathText(prefix: string, names: seq<string>): string
    decreases |names|
  {
    if names == [] then prefix else PathText(Extend(prefix, names[0]), names[1..])
  }

  predicate NoDuplicates<T(==)>(xs: seq<T>) {
    forall i, j :: 0 <= i < j < |xs| ==> xs[i] != xs[j]
  }

  // A plain name is non-empty and holds no dot.
  predicate Plain(name: string) {
    name != "" && '.' !in name
  }

  predicate AllPlain(names: seq<string>) {
    forall i :: 0 <= i < |names| ==> Plain(names[i])
  }

  // ---------------------------------------------------------------- names back from text

  function Dotted(names: seq<string>): string {
    if names == [] then "" else "." + (names[0] + Dotted(names[1..]))
  }

  lemma {:induction false} PathTextBelowPrefix(prefix: string, names: seq<string>)
    requires prefix != ""
    ensures PathText(prefix, names) == prefix + Dotted(names)
    decreases |names|
  {
    if names != [] {
      PathTextBelowPrefix(Extend(prefix, names[0]), names[1..]);
      assert Extend(prefix, names[0]) + Dotted(names[1..]) == prefix + Dotted(names);
    }
  }

  lemma {:induction false} DottedIsInjective(a: seq<string>, b: seq<string>)
    requires AllPlain(a) && AllPlain(b)
    requires Dotted(a) == Dotted(b)
    ensures a == b
  {
    if a != [] && b != [] {
      var x, y := Dotted(a[1..]), Dotted(b[1..]);
      assert a[0] + x == Dotted(a)[1..] == Dotted(b)[1..] == b[0] + y;
      SplitAtSeparator('.', a[0], x, b[0], y);
      DottedIsInjective(a[1..], b[1..]);
      assert a == [a[0]] + a[1..] == [b[0]] + b[1..] == b;
    }
  }

  /** Joining plain names loses nothing: equal dotted texts come from equal name sequences. */
  lemma PathTextIsInjective(a: seq<string>, b: seq<string>)
    requires AllPlain(a) && AllPlain(b)
    requires PathText("", a) == PathText("", b)
    ensures a == b
  {
    if a != [] {
      PathTextBelowPrefix(a[0], a[1..]);
      assert PathText("", a) == a[0] + Dotted(a[1..]);
    }
    if b != [] {
      PathTextBelowPrefix(b[0], b[1..]);
      assert PathText("", b) == b[0] + Dotted(b[1..]);
    }
    if a != [] && b != [] {
      SplitAtSeparator('.', a[0], Dotted(a[1..]), b[0], Dotted(b[1..]));
      DottedIsInjective(a[1..], b[1..]);
      assert a == [a[0]] + a[1..] == [b[0]] + b[1..] == b;
    }
  }

  // ---------------------------------------------------------------- lexicographic order

  predicate Before(a: string, b: string) {
    b != "" && (a == "" || a[0] < b[0] || (a[0] == b[0] && Before(a[1..], b[1..])))
  }

  lemma {:induction false} BeforeIsTotal(a: string, b: string)
    ensures Before(a, b) || a == b || Before(b, a)
  {
    if a != "" && b != "" {
      BeforeIsTotal(a[1..], b[1..]);
      assert a == [a[0]] + a[1..] && b == [b[0]] + b[1..];
    }
  }

  lemma {:induction false} BeforeIsTransitive(a: string, b: string, c: string)
    requires Before(a, b) && Before(b, c)
    ensures Before(a, c)
  {
    if a != "" && a[0] == b[0] == c[0] {
      BeforeIsTransitive(a[1..], b[1..], c[1..]);
    }
  }

  lemma {:induction false} BeforeIsIrreflexive(a: string)
    ensures !Before(a, a)
  {
    if a != "" {
      BeforeIsIrreflexive(a[1..]);
    }
  }

  predicate StrictlyIncreasing(xs: seq<string>) {
    forall i, j :: 0 <= i < j < |xs| ==> Before(xs[i], xs[j])
  }

  function Insert(x: string, xs: seq<string>): (r: seq<string>)
    requires StrictlyIncreasing(xs) && x !in xs
    ensures StrictlyIncreasing(r)
    ensures forall y :: y in r <==> y == x || y in xs
  {
    if xs == [] then [x]
    else if Before(x, xs[0]) then
      assert forall i :: 0 < i < |xs| ==> Before(x, xs[i]) by {
        forall i | 0 < i < |xs| ensures Before(x, xs[i]) { BeforeIsTransitive(x, xs[0], xs[i]); }
      }
      [x] + xs
    else
      BeforeIsTotal(x, xs[0]);
      var rest := Insert(x, xs[1..]);
      assert forall i :: 0 <= i < |rest| ==> Before(xs[0], rest[i]) by {
        forall i | 0 <= i < |rest| ensures Before(xs[0], rest[i]) {
          assert rest[i] in rest;
          if rest[i] != x {
            var k :| 0 <= k < |xs[1..]| && xs[1..][k] == rest[i];
            assert xs[k + 1] == rest[i];
          }
        }
      }
      [xs[0]] + rest
  }

  /** The sorted form of a duplicate-free list. */
  function Sorted(xs: seq<string>): (r: seq<string>)
    requires NoDuplicates(xs)
    ensures StrictlyIncreasing(r)
    ensures forall y :: y in r <==> y in xs
  {
    if xs == [] then [] else Insert(xs[0], Sorted(xs[1..]))
  }

  lemma HeadIsLeast(xs: seq<string>, x: string)
    requires StrictlyIncreasing(xs) && x in xs
    ensures x == xs[0] || Before(xs[0], x)
  {
  }

  lemma TailElements(xs: seq<string>, y: string)
    requires StrictlyIncreasing(xs) && xs != []
    ensures y in xs[1..] <==> y in xs && y != xs[0]
  {
    if y in xs[1..] {
      BeforeIsIrreflexive(xs[0]);
    }
  }

  /** A strictly increasing list is determined by its elements. */
  lemma {:induction false} IncreasingListIsUnique(xs: seq<string>, ys: seq<string>)
    requires StrictlyIncreasing(xs) && StrictlyIncreasing(ys)
    requires forall y :: y in xs <==> y in ys
    ensures xs == ys
  {
    assert xs != [] ==> xs[0] in ys;
    assert ys != [] ==> ys[0] in xs;
    if xs != [] && ys != [] {
      HeadIsLeast(xs, ys[0]);
      HeadIsLeast(ys, xs[0]);
      if xs[0] != ys[0] {
        BeforeIsTransitive(xs[0], ys[0], xs[0]);
        BeforeIsIrreflexive(xs[0]);
      }
      forall y ensures y in xs[1..] <==> y in ys[1..] {
        TailElements(xs, y);
        TailElements(ys, y);
      }
      IncreasingListIsUnique(xs[1..], ys[1..]);
    }
  }
}
