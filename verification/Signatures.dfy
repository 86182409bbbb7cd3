/** How far a tuple of texts can be told from its NUL-joined form (internal/powerscale/prometheus.go). */
module Signatures {
  import opened Strings
  import opened Counting

  function Nuls(parts: seq<string>): nat {
    if parts == [] then 0 else Count(parts[0], '\0') + Nuls(parts[1..])
  }

  lemma {:induction false} CountOfConcatenation(a: string, b: string, c: char)
    ensures Count(a + b, c) == Count(a, c) + Count(b, c)
    decreases |b|
  {
    if b == [] {
      assert a + b == a;
    } else {
      assert (a + b)[..|a + b| - 1] == a + b[..|b| - 1];
      CountOfConcatenation(a, b[..|b| - 1], c);
    }
  }

  lemma {:induction false} NulsOfJoin(parts: seq<string>)
    ensures Count(JoinRest(parts), '\0') == |parts| + Nuls(parts)
  {
    if parts != [] {
      var rest := JoinRest(parts[1..]);
      NulsOfJoin(parts[1..]);
      CountOfConcatenation(parts[0], rest, '\0');
      CountOfConcatenation("\0", parts[0] + rest, '\0');
      assert Count("\0", '\0') == 1 by {
        assert "\0"[..0] == "";
      }
    }
  }

  lemma {:induction false} NulFreeExactly(parts: seq<string>)
    ensures Nuls(parts) == 0 <==> NulFree(parts)
  {
    if parts != [] {
      NulFreeExactly(parts[1..]);
      CountIsPositive(parts[0], '\0');
      assert NulFree(parts) <==> '\0' !in parts[0] && NulFree(parts[1..]) by {
        assert forall i :: 0 < i < |parts| ==> parts[i] == parts[1..][i - 1];
        assert forall i :: 0 <= i < |parts[1..]| ==> parts[1..][i] == parts[i + 1];
      }
    }
  }

  /** A NUL-free tuple shares its joined form with no other tuple of its length, whatever that one holds. */
  lemma NulFreeTupleStandsAlone(a: seq<string>, b: seq<string>)
    requires |a| == |b| && NulFree(a) && JoinNul(a) == JoinNul(b)
    ensures a == b
  {
    if a != [] {
      NulsOfJoin(a);
      NulsOfJoin(b);
      assert JoinRest(a) == JoinRest(b);
      NulFreeExactly(a);
      NulFreeExactly(b);
      JoinNulIsInjective(a, b);
    }
  }

  // Where a boundary between two parts falls is lost in the joined form.
  lemma {:induction false} BoundaryIsLost(before: seq<string>, x: string, y: string, x': string, y': string, after: seq<string>)
    requires x + ("\0" + y) == x' + ("\0" + y')
    ensures JoinRest(before + [x, y] + after) == JoinRest(before + [x', y'] + after)
  {
    var a, b := before + [x, y] + after, before + [x', y'] + after;
    if before == [] {
      var rest := JoinRest(after);
      assert a[1..] == [y] + after && b[1..] == [y'] + after;
      assert ([y] + after)[1..] == after && ([y'] + after)[1..] == after;
      assert x + ("\0" + (y + rest)) == (x + ("\0" + y)) + rest;
      assert x' + ("\0" + (y' + rest)) == (x' + ("\0" + y')) + rest;
    } else {
      BoundaryIsLost(before[1..], x, y, x', y', after);
      assert a[1..] == before[1..] + [x, y] + after && b[1..] == before[1..] + [x', y'] + after;
    }
  }

  // With the boundary after part `i` moved, the tuple is another and its joined form the same.
  lemma MoveBoundary(a: seq<string>, i: nat, x: string, y: string) returns (b: seq<string>)
    requires i + 1 < |a| && a[i] + ("\0" + a[i + 1]) == x + ("\0" + y) && a[i] != x
    ensures b == a[..i] + [x, y] + a[i + 2..] && b != a && JoinNul(b) == JoinNul(a)
  {
    b := a[..i] + [x, y] + a[i + 2..];
    assert a == a[..i] + [a[i], a[i + 1]] + a[i + 2..];
    BoundaryIsLost(a[..i], a[i], a[i + 1], x, y, a[i + 2..]);
    assert JoinNul(a) == JoinRest(a)[1..] && JoinNul(b) == JoinRest(b)[1..];
    assert b[i] == x;
  }

  lemma MovedWithin(a: seq<string>, b: seq<string>, i: nat, x: string, y: string, lo: nat, hi: nat)
    requires lo <= i && i + 2 <= hi <= |a| && b == a[..i] + [x, y] + a[i + 2..]
    ensures |b| == |a| && b[..lo] == a[..lo] && b[hi..] == a[hi..] && b[i] == x && b[i + 1] == y
  {
    assert forall k :: 0 <= k < lo ==> b[k] == a[k];
    assert forall k :: hi <= k < |a| ==> b[k] == a[k];
  }

  // Where NUL occurs among two or more neighbouring parts, a boundary among them can be moved; one of them is then
  // not empty.
  lemma AnotherTuple(a: seq<string>, lo: nat, hi: nat) returns (b: seq<string>)
    requires lo + 2 <= hi <= |a| && exists i :: lo <= i < hi && !NoNul(a[i])
    ensures |b| == |a| && b != a && JoinNul(b) == JoinNul(a)
    ensures b[..lo] == a[..lo] && b[hi..] == a[hi..] && exists i :: lo <= i < hi && b[i] != ""
  {
    var i :| lo <= i < hi && !NoNul(a[i]);
    var k :| 0 <= k < |a[i]| && a[i][k] == '\0';
    var x, y := a[i][..k], a[i][k + 1..];
    assert a[i] == x + ("\0" + y);
    if i + 1 < hi {
      assert a[i] + ("\0" + a[i + 1]) == x + ("\0" + (y + ("\0" + a[i + 1])));
      b := MoveBoundary(a, i, x, y + ("\0" + a[i + 1]));
      MovedWithin(a, b, i, x, y + ("\0" + a[i + 1]), lo, hi);
    } else {
      assert a[i - 1] + ("\0" + a[i]) == (a[i - 1] + ("\0" + x)) + ("\0" + y);
      b := MoveBoundary(a, i - 1, a[i - 1] + ("\0" + x), y);
      MovedWithin(a, b, i - 1, a[i - 1] + ("\0" + x), y, lo, hi);
    }
  }

  /** Exactly when joining tells a tuple from all others of its length: it has one part, or no NUL. */
  lemma JoinTellsExactly(a: seq<string>)
    ensures (forall b :: |b| == |a| && JoinNul(b) == JoinNul(a) ==> b == a) <==> |a| <= 1 || NulFree(a)
  {
    forall b | |b| == |a| && JoinNul(b) == JoinNul(a) && (|a| <= 1 || NulFree(a)) ensures b == a {
      if NulFree(a) {
        NulFreeTupleStandsAlone(a, b);
      } else {
        assert a[1..] == [] && b[1..] == [];
        assert a[0] == JoinNul(a) == JoinNul(b) == b[0];
      }
    }
    if |a| >= 2 && !NulFree(a) {
      var b := AnotherTuple(a, 0, |a|);
    }
  }

  lemma {:induction false} FreeLastOfRest(a: seq<string>, b: seq<string>)
    requires |a| == |b| && a != [] && NulFree(a[..|a| - 1]) && NulFree(b[..|b| - 1]) && JoinRest(a) == JoinRest(b)
    ensures a == b
  {
    var x, y := JoinRest(a[1..]), JoinRest(b[1..]);
    assert a[0] + x == JoinRest(a)[1..] == JoinRest(b)[1..] == b[0] + y;
    if |a| == 1 {
      assert a[1..] == [] && b[1..] == [] && a[0] + "" == a[0] && b[0] + "" == b[0];
      assert a == [a[0]] && b == [b[0]];
    } else {
      assert a[0] == a[..|a| - 1][0] && b[0] == b[..|b| - 1][0];
      SplitAtSeparator('\0', a[0], x, b[0], y);
      assert a[1..][..|a| - 2] == a[..|a| - 1][1..] && b[1..][..|b| - 2] == b[..|b| - 1][1..];
      FreeLastOfRest(a[1..], b[1..]);
      assert a == [a[0]] + a[1..] == [b[0]] + b[1..] == b;
    }
  }

  /** Tuples of one length whose last part alone may hold NUL are told apart by their joined forms. */
  lemma FreeLastTellsTuples(a: seq<string>, b: seq<string>)
    requires |a| == |b| && a != [] && NulFree(a[..|a| - 1]) && NulFree(b[..|b| - 1]) && JoinNul(a) == JoinNul(b)
    ensures a == b
  {
    FreeLastOfRest(a, b);
  }
}
