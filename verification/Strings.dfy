/** Library operations on strings that the program relies on, as far as it relies on them. */
module Strings {

  // ---------------------------------------------------------------- spaces, case, numbers

  predicate IsSpace(c: char) {
    '\U{0009}' <= c <= '\U{000D}' || c == ' ' || c == '\U{0085}' || c == '\U{00A0}' || c == '\U{1680}' ||
    '\U{2000}' <= c <= '\U{200A}' || c == '\U{2028}' || c == '\U{2029}' || c == '\U{202F}' || c == '\U{205F}' || c == '\U{3000}'
  }

  function TrimSpace(s: string): (r: string)
    ensures r != "" ==> !IsSpace(r[0]) && !IsSpace(r[|r| - 1])
  {
    if s == "" then ""
    else if IsSpace(s[0]) then TrimSpace(s[1..])
    else if IsSpace(s[|s| - 1]) then TrimSpace(s[..|s| - 1])
    else s
  }

  lemma TrimSpaceKeeps(s: string)
    requires s != "" && !IsSpace(s[0]) && !IsSpace(s[|s| - 1])
    ensures TrimSpace(s) == s
  {
  }

  // Lower case, for comparison with ASCII words: two characters beyond ASCII have an ASCII lower case.
  function Lower(s: string): string {
    seq(|s|, i requires 0 <= i < |s| =>
      if 'A' <= s[i] <= 'Z' then s[i] + 32 as char
      else if s[i] == '\U{0130}' then 'i'
      else if s[i] == '\U{212A}' then 'k'
      else s[i])
  }

  // Case folding, for comparison with ASCII words.
  function Fold(s: string): string {
    seq(|s|, i requires 0 <= i < |s| =>
      if 'A' <= s[i] <= 'Z' then s[i] + 32 as char
      else if s[i] == '\U{017F}' then 's'
      else if s[i] == '\U{212A}' then 'k'
      else s[i])
  }

  predicate HasInfix(s: string, word: string) {
    exists i :: 0 <= i <= |s| && word <= s[i..]
  }

  function Digits(n: nat): string {
    if n < 10 then ['0' + n as char] else Digits(n / 10) + ['0' + (n % 10) as char]
  }

  function Itoa(n: int): string {
    if n < 0 then "-" + Digits(-n) else Digits(n)
  }

  ghost predicate IsNumeral(s: string) {
    exists n :: s == Itoa(n)
  }

  lemma {:induction false} DigitsAreDigits(n: nat)
    ensures forall i :: 0 <= i < |Digits(n)| ==> '0' <= Digits(n)[i] <= '9'
  {
    if n >= 10 {
      DigitsAreDigits(n / 10);
    }
  }

  lemma ItoaHasNoNul(n: int)
    ensures NoNul(Itoa(n))
  {
    DigitsAreDigits(if n < 0 then -n else n);
  }

  // ---------------------------------------------------------------- joining

  // The number of characters before the first `sep`.
  function LengthBefore(sep: char, text: string): nat {
    if text == "" || text[0] == sep then 0 else 1 + LengthBefore(sep, text[1..])
  }

  lemma {:induction false} LengthBeforeSeparator(sep: char, a: string, rest: string)
    requires sep !in a && (rest == "" || rest[0] == sep)
    ensures LengthBefore(sep, a + rest) == |a|
  {
    if a == "" {
      assert a + rest == rest;
    } else {
      assert (a + rest)[1..] == a[1..] + rest;
      LengthBeforeSeparator(sep, a[1..], rest);
    }
  }

  /** A text splits in one way into a part without the separator and a rest that starts with it. */
  lemma SplitAtSeparator(sep: char, a: string, x: string, b: string, y: string)
    requires sep !in a && (x == "" || x[0] == sep)
    requires sep !in b && (y == "" || y[0] == sep)
    requires a + x == b + y
    ensures a == b && x == y
  {
    LengthBeforeSeparator(sep, a, x);
    LengthBeforeSeparator(sep, b, y);
    assert a == (a + x)[..|a|] == (b + y)[..|b|] == b;
    assert x == (a + x)[|a|..] == (b + y)[|b|..] == y;
  }

  function JoinNul(parts: seq<string>): string {
    if parts == [] then "" else parts[0] + JoinRest(parts[1..])
  }

  function JoinRest(parts: seq<string>): string {
    if parts == [] then "" else "\0" + (parts[0] + JoinRest(parts[1..]))
  }

  predicate NoNul(s: string) {
    '\0' !in s
  }

  predicate NulFree(parts: seq<string>) {
    forall i :: 0 <= i < |parts| ==> NoNul(parts[i])
  }

  lemma {:induction false} JoinRestIsInjective(a: seq<string>, b: seq<string>)
    requires NulFree(a) && NulFree(b) && JoinRest(a) == JoinRest(b)
    ensures a == b
  {
    if a != [] && b != [] {
      var x, y := JoinRest(a[1..]), JoinRest(b[1..]);
      assert a[0] + x == JoinRest(a)[1..] == JoinRest(b)[1..] == b[0] + y;
      SplitAtSeparator('\0', a[0], x, b[0], y);
      JoinRestIsInjective(a[1..], b[1..]);
      assert a == [a[0]] + a[1..] == [b[0]] + b[1..] == b;
    }
  }

  /** Joining NUL-free parts by NUL loses nothing among non-empty lists. */
  lemma JoinNulIsInjective(a: seq<string>, b: seq<string>)
    requires a != [] && b != [] && NulFree(a) && NulFree(b)
    requires JoinNul(a) == JoinNul(b)
    ensures a == b
  {
    SplitAtSeparator('\0', a[0], JoinRest(a[1..]), b[0], JoinRest(b[1..]));
    JoinRestIsInjective(a[1..], b[1..]);
    assert a == [a[0]] + a[1..] == [b[0]] + b[1..] == b;
  }
}
