/** What trimming, case mapping and number formatting do to the characters of a text: the library operations of
module Strings, character by character. */
module TextAsWritten {
  import opened Strings

  // ---------------------------------------------------------------- white space

  // The code points of white space.
  predicate Blank(c: char) {
    var n := c as int;
    9 <= n <= 13 || n == 32 || n == 0x85 || n == 0xA0 || n == 0x1680 || 0x2000 <= n <= 0x200A ||
    n == 0x2028 || n == 0x2029 || n == 0x202F || n == 0x205F || n == 0x3000
  }

  lemma BlankIsSpace(c: char)
    ensures Blank(c) <==> IsSpace(c)
  {
  }

  // `r` is `s` from position `i` to `j`, with nothing but white space around it and none at its ends.
  ghost predicate TrimsBetween(s: string, r: string, i: nat, j: nat) {
    && i <= j <= |s| && r == s[i..j]
    && (forall k :: 0 <= k < i ==> Blank(s[k]))
    && (forall k :: j <= k < |s| ==> Blank(s[k]))
    && (r != "" ==> !Blank(r[0]) && !Blank(r[|r| - 1]))
  }

  ghost predicate Trims(s: string, r: string) {
    exists i, j :: TrimsBetween(s, r, i, j)
  }

  lemma TrimsAfterFirst(s: string, r: string, i: nat, j: nat)
    requires s != "" && Blank(s[0]) && TrimsBetween(s[1..], r, i, j)
    ensures TrimsBetween(s, r, i + 1, j + 1)
  {
    assert s[1..][i..j] == s[i + 1..j + 1];
    assert forall k :: 0 < k < |s| ==> s[k] == s[1..][k - 1];
  }

  lemma TrimsBeforeLast(s: string, r: string, i: nat, j: nat)
    requires s != "" && Blank(s[|s| - 1]) && TrimsBetween(s[..|s| - 1], r, i, j)
    ensures TrimsBetween(s, r, i, j)
  {
    assert s[..|s| - 1][i..j] == s[i..j];
    assert forall k :: 0 <= k < |s| - 1 ==> s[k] == s[..|s| - 1][k];
  }

  lemma {:induction false} TrimSpaceTrims(s: string) returns (i: nat, j: nat)
    ensures TrimsBetween(s, TrimSpace(s), i, j)
    decreases |s|
  {
    i, j := 0, |s|;
    if s != "" {
      BlankIsSpace(s[0]);
      BlankIsSpace(s[|s| - 1]);
      if IsSpace(s[0]) {
        i, j := TrimSpaceTrims(s[1..]);
        TrimsAfterFirst(s, TrimSpace(s), i, j);
        i, j := i + 1, j + 1;
      } else if IsSpace(s[|s| - 1]) {
        i, j := TrimSpaceTrims(s[..|s| - 1]);
        TrimsBeforeLast(s, TrimSpace(s), i, j);
      } else {
        assert s[0..|s|] == s;
      }
    }
  }

  lemma TrimsOnce(s: string, r: string, i: nat, j: nat, r': string, i': nat, j': nat)
    requires TrimsBetween(s, r, i, j) && TrimsBetween(s, r', i', j')
    ensures r == r'
  {
    if r != "" {
      assert !Blank(s[i]) && !Blank(s[j - 1]);
    }
    if r' != "" {
      assert !Blank(s[i']) && !Blank(s[j' - 1]);
    }
  }

  /** Trimming takes the white space off both ends and nothing else. */
  lemma TrimSpaceAsWritten(s: string, r: string)
    ensures r == TrimSpace(s) <==> Trims(s, r)
  {
    var i, j := TrimSpaceTrims(s);
    if Trims(s, r) {
      var i', j' :| TrimsBetween(s, r, i', j');
      TrimsOnce(s, r, i', j', TrimSpace(s), i, j);
    }
  }

  // ---------------------------------------------------------------- case

  // Characters that become `w` in lower case; `w` is a small ASCII letter or an underscore.
  predicate LowersTo(c: char, w: char) {
    c == w || ('a' <= w <= 'z' && c as int == w as int - 32) || (w == 'i' && c == '\U{0130}') || (w == 'k' && c == '\U{212A}')
  }

  // Characters that equal `w` up to case.
  predicate FoldsTo(c: char, w: char) {
    c == w || ('a' <= w <= 'z' && c as int == w as int - 32) || (w == 's' && c == '\U{017F}') || (w == 'k' && c == '\U{212A}')
  }

  predicate SmallWord(word: string) {
    forall k :: 0 <= k < |word| ==> 'a' <= word[k] <= 'z' || word[k] == '_'
  }

  predicate LowersToWord(s: string, word: string) {
    |s| == |word| && forall k :: 0 <= k < |s| ==> LowersTo(s[k], word[k])
  }

  predicate FoldsToWord(s: string, word: string) {
    |s| == |word| && forall k :: 0 <= k < |s| ==> FoldsTo(s[k], word[k])
  }

  lemma LowerAsWritten(s: string, word: string)
    requires SmallWord(word)
    ensures Lower(s) == word <==> LowersToWord(s, word)
  {
    forall k | 0 <= k < |s| && k < |word| ensures Lower(s)[k] == word[k] <==> LowersTo(s[k], word[k]) {
    }
  }

  lemma FoldAsWritten(s: string, word: string)
    requires SmallWord(word)
    ensures Fold(s) == word <==> FoldsToWord(s, word)
  {
    forall k | 0 <= k < |s| && k < |word| ensures Fold(s)[k] == word[k] <==> FoldsTo(s[k], word[k]) {
    }
  }

  // The word stands at position `i` of the text, in whatever case.
  predicate WordAt(s: string, i: nat, word: string) {
    i + |word| <= |s| && forall k :: 0 <= k < |word| ==> LowersTo(s[i + k], word[k])
  }

  lemma WordAtAsWritten(s: string, i: nat, word: string)
    requires SmallWord(word) && i <= |s|
    ensures word <= Lower(s)[i..] <==> WordAt(s, i, word)
  {
    var rest := Lower(s)[i..];
    if |word| <= |rest| {
      assert forall k :: 0 <= k < |word| ==> (rest[k] == word[k] <==> LowersTo(s[i + k], word[k]));
    }
  }

  lemma HasInfixAsWritten(s: string, word: string)
    requires SmallWord(word)
    ensures HasInfix(Lower(s), word) <==> exists i: nat :: WordAt(s, i, word)
  {
    forall i: nat | i <= |s| ensures word <= Lower(s)[i..] <==> WordAt(s, i, word) {
      WordAtAsWritten(s, i, word);
    }
    if i: nat :| WordAt(s, i, word) {
      assert word <= Lower(s)[i..];
    }
  }

  // ---------------------------------------------------------------- numbers

  // The number a list of decimal digits stands for.
  function ValueOf(digits: string): int {
    if digits == "" then 0 else 10 * ValueOf(digits[..|digits| - 1]) + (digits[|digits| - 1] as int - '0' as int)
  }

  // Digits only, and no leading zero.
  predicate IsDecimal(digits: string) {
    && digits != ""
    && (forall k :: 0 <= k < |digits| ==> '0' <= digits[k] <= '9')
    && (digits[0] == '0' ==> |digits| == 1)
  }

  lemma {:induction false} DigitsAsWritten(n: nat)
    ensures IsDecimal(Digits(n)) && ValueOf(Digits(n)) == n
    ensures n > 0 ==> Digits(n)[0] != '0'
  {
    if n >= 10 {
      DigitsAsWritten(n / 10);
      var rest, last := Digits(n / 10), '0' + (n % 10) as char;
      assert Digits(n) == rest + [last];
      assert (rest + [last])[..|rest|] == rest;
    } else {
      assert Digits(n)[..0] == "";
    }
  }

  /** A number is written in decimal, with a minus sign when it is negative. */
  lemma ItoaAsWritten(n: int)
    ensures n >= 0 ==> IsDecimal(Itoa(n)) && ValueOf(Itoa(n)) == n
    ensures n < 0 ==> |Itoa(n)| > 1 && Itoa(n)[0] == '-' && IsDecimal(Itoa(n)[1..]) && ValueOf(Itoa(n)[1..]) == -n
  {
    DigitsAsWritten(if n < 0 then -n else n);
    if n < 0 {
      assert Itoa(n)[1..] == Digits(-n);
    }
  }
}
