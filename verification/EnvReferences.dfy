/** The grammar of environment references in configuration strings, and what a string means under it.

A reference is `${NAME}` or `${NAME:-default}`. A string is read as the sequence of its leftmost,
non-overlapping references and the characters between them (internal/utils/env.go). */
module EnvReferences {
  import opened Wrappers

  datatype Token = Character(c: char) | Reference(name: string, fallback: Option<string>)

  predicate IsNameStart(c: char) {
    'A' <= c <= 'Z' || 'a' <= c <= 'z' || c == '_'
  }

  predicate IsNamePart(c: char) {
    IsNameStart(c) || '0' <= c <= '9'
  }

  predicate IsName(s: string) {
    s != "" && IsNameStart(s[0]) && forall i :: 0 <= i < |s| ==> IsNamePart(s[i])
  }

  predicate WellFormed(t: Token) {
    t.Reference? ==> IsName(t.name) && (t.fallback.Some? ==> '}' !in t.fallback.value)
  }

  // What follows the name of a reference.
  function Closing(fallback: Option<string>): string {
    match fallback
    case None => "}"
    case Some(f) => ":-" + f + "}"
  }

  function Text(t: Token): (r: string)
    ensures r != ""
  {
    match t
    case Character(c) => [c]
    case Reference(name, fallback) => "${" + name + Closing(fallback)
  }

  function Print(ts: seq<Token>): string {
    if ts == [] then "" else Text(ts[0]) + Print(ts[1..])
  }

  ghost predicate ReferenceAt(s: string, t: Token) {
    t.Reference? && WellFormed(t) && Text(t) <= s
  }

  /** The declarative reading: the tokens print to `s`, and no reference starts at a plain character. */
  ghost predicate IsTokenisation(s: string, ts: seq<Token>) {
    && Print(ts) == s
    && (forall i :: 0 <= i < |ts| ==> WellFormed(ts[i]))
    && (forall i :: 0 <= i < |ts| && ts[i].Character? ==> forall t :: !ReferenceAt(Print(ts[i..]), t))
  }

  ghost predicate ContainsReference(s: string) {
    exists i, t :: 0 <= i <= |s| && ReferenceAt(s[i..], t)
  }

  // ---------------------------------------------------------------- matching at one position

  // The length of the longest start of `s` made of name characters.
  function NameRun(s: string): (n: nat)
    ensures n <= |s|
    ensures forall i :: 0 <= i < n ==> IsNamePart(s[i])
    ensures n < |s| ==> !IsNamePart(s[n])
  {
    if s != "" && IsNamePart(s[0]) then 1 + NameRun(s[1..]) else 0
  }

  // The position of the first closing brace, or the length of `s`.
  function BraceAt(s: string): (n: nat)
    ensures n <= |s|
    ensures '}' !in s[..n]
    ensures n < |s| ==> s[n] == '}'
  {
    if s != "" && s[0] != '}' then
      var n := BraceAt(s[1..]);
      assert s[..n + 1] == [s[0]] + s[1..][..n];
      n + 1
    else 0
  }

  // The closing part `rest` starts with, if any: Some(None) is a bare brace.
  function MatchClosing(rest: string): Option<Option<string>> {
    if rest != "" && rest[0] == '}' then Some(None)
    else if |rest| >= 2 && rest[0] == ':' && rest[1] == '-' then
      var n := BraceAt(rest[2..]);
      if n < |rest[2..]| then Some(Some(rest[2..][..n])) else None
    else None
  }

  /** The reference `s` starts with, if any. */
  function Match(s: string): Option<Token> {
    if |s| > 2 && s[0] == '$' && s[1] == '{' && IsNameStart(s[2]) then
      var n := NameRun(s[2..]);
      match MatchClosing(s[2..][n..])
      case Some(fallback) => Some(Reference(s[2..][..n], fallback))
      case None => None
    else None
  }

  lemma {:induction false} NameRunOfName(name: string, rest: string)
    requires forall i :: 0 <= i < |name| ==> IsNamePart(name[i])
    requires rest != "" && !IsNamePart(rest[0])
    ensures NameRun(name + rest) == |name|
  {
    if name == "" {
      assert name + rest == rest;
    } else {
      assert (name + rest)[1..] == name[1..] + rest;
      NameRunOfName(name[1..], rest);
    }
  }

  lemma {:induction false} BraceAfter(text: string, rest: string)
    requires '}' !in text && rest != "" && rest[0] == '}'
    ensures BraceAt(text + rest) == |text|
  {
    if text == "" {
      assert text + rest == rest;
    } else {
      assert (text + rest)[1..] == text[1..] + rest;
      BraceAfter(text[1..], rest);
    }
  }

  lemma ClosingIsSound(rest: string)
    ensures MatchClosing(rest).Some? ==>
              Closing(MatchClosing(rest).value) <= rest && WellFormed(Reference("x", MatchClosing(rest).value))
  {
    if MatchClosing(rest).Some? && rest[0] != '}' {
      var f := MatchClosing(rest).value.value;
      assert rest == rest[..2] + rest[2..] == ":-" + rest[2..];
      assert f + "}" == rest[2..][..|f| + 1];
    }
  }

  lemma ClosingIsComplete(fallback: Option<string>, after: string)
    requires fallback.Some? ==> '}' !in fallback.value
    ensures MatchClosing(Closing(fallback) + after) == Some(fallback)
  {
    if fallback.Some? {
      var f, rest := fallback.value, Closing(fallback) + after;
      assert rest == ":-" + (f + ("}" + after));
      assert rest[2..] == f + ("}" + after);
      BraceAfter(f, "}" + after);
      assert rest[2..][..|f|] == f;
    }
  }

  lemma MatchIsSound(s: string)
    ensures Match(s).Some? ==> ReferenceAt(s, Match(s).value)
  {
    if Match(s).Some? {
      var n := NameRun(s[2..]);
      var name, rest := s[2..][..n], s[2..][n..];
      ClosingIsSound(rest);
      assert s == "${" + name + rest;
    }
  }

  lemma MatchIsComplete(s: string, t: Token)
    requires ReferenceAt(s, t)
    ensures Match(s) == Some(t)
  {
    var after := s[|Text(t)|..];
    var closing := Closing(t.fallback) + after;
    ClosingIsComplete(t.fallback, after);
    assert s == Text(t) + after;
    assert s == "${" + (t.name + closing);
    var body := t.name + closing;
    assert s[2..] == body;
    NameRunOfName(t.name, closing);
    assert body[..|t.name|] == t.name && body[|t.name|..] == closing;
    assert s[2] == body[0] == t.name[0];
  }

  /** Matching is exact, so a position starts at most one reference. */
  lemma MatchIsExact(s: string, t: Token)
    ensures ReferenceAt(s, t) <==> Match(s) == Some(t)
  {
    MatchIsSound(s);
    if ReferenceAt(s, t) {
      MatchIsComplete(s, t);
    }
  }

  // ---------------------------------------------------------------- the whole string

  function Tokens(s: string): seq<Token>
    decreases |s|
  {
    if s == "" then []
    else match Match(s)
      case Some(t) =>
        MatchIsSound(s);
        [t] + Tokens(s[|Text(t)|..])
      case None => [Character(s[0])] + Tokens(s[1..])
  }

  lemma PrependToken(t: Token, rest: string, ts: seq<Token>)
    requires IsTokenisation(rest, ts) && WellFormed(t)
    requires t.Character? ==> Match(Text(t) + rest).None?
    ensures IsTokenisation(Text(t) + rest, [t] + ts)
  {
    var s, all := Text(t) + rest, [t] + ts;
    assert all[1..] == ts && all[0..] == all;
    forall i, u | 0 <= i < |all| && all[i].Character? ensures !ReferenceAt(Print(all[i..]), u) {
      if i == 0 {
        MatchIsExact(s, u);
      } else {
        assert all[i..] == ts[i - 1..] && all[i] == ts[i - 1];
      }
    }
  }

  lemma {:induction false} TokensAreATokenisation(s: string)
    ensures IsTokenisation(s, Tokens(s))
    decreases |s|
  {
    if s != "" {
      MatchIsSound(s);
      var t := if Match(s).Some? then Match(s).value else Character(s[0]);
      var rest := s[|Text(t)|..];
      assert s == Text(t) + rest;
      TokensAreATokenisation(rest);
      PrependToken(t, rest, Tokens(rest));
    }
  }

  lemma RestOfTokenisation(s: string, ts: seq<Token>)
    requires IsTokenisation(s, ts) && ts != []
    ensures Text(ts[0]) <= s && IsTokenisation(s[|Text(ts[0])|..], ts[1..])
    ensures Match(s) == if ts[0].Reference? then Some(ts[0]) else None
  {
    assert ts[0..] == ts;
    assert s[|Text(ts[0])|..] == Print(ts[1..]);
    forall i | 0 <= i < |ts[1..]| ensures ts[1..][i..] == ts[i + 1..] && ts[1..][i] == ts[i + 1] {
    }
    if ts[0].Reference? {
      MatchIsComplete(s, ts[0]);
    } else {
      MatchIsSound(s);
    }
  }

  /** Every string has exactly one reading, and `Tokens` is it. */
  lemma {:induction false} TokenisationIsUnique(s: string, ts: seq<Token>)
    ensures IsTokenisation(s, ts) <==> ts == Tokens(s)
    decreases |ts|
  {
    TokensAreATokenisation(s);
    if IsTokenisation(s, ts) && ts != [] {
      RestOfTokenisation(s, ts);
      TokenisationIsUnique(s[|Text(ts[0])|..], ts[1..]);
      assert ts == [ts[0]] + ts[1..];
    }
  }

  /** Reading a printed reference gives it back. */
  lemma TokensOfReference(t: Token)
    requires t.Reference? && WellFormed(t)
    ensures Tokens(Text(t)) == [t]
  {
    MatchIsComplete(Text(t), t);
    assert Text(t)[|Text(t)|..] == "";
  }

  predicate HasReference(ts: seq<Token>) {
    exists i :: 0 <= i < |ts| && ts[i].Reference?
  }

  /** A reference occurs somewhere exactly when the reading has one: overlaps hide none altogether. */
  lemma {:induction false} ReferenceOccursExactlyInTokens(s: string)
    ensures ContainsReference(s) <==> HasReference(Tokens(s))
    decreases |s|
  {
    if s == "" {
      assert forall t :: !ReferenceAt(s[0..], t);
    } else {
      MatchIsSound(s);
      var ts := Tokens(s);
      if Match(s).Some? {
        assert s[0..] == s && ReferenceAt(s[0..], ts[0]);
        assert ts[0].Reference?;
      } else {
        assert ts[1..] == Tokens(s[1..]);
        ReferenceOccursExactlyInTokens(s[1..]);
        if i, t :| 0 <= i <= |s| && ReferenceAt(s[i..], t) {
          MatchIsExact(s, t);
          assert s[0..] == s;
          assert i > 0 && s[1..][i - 1..] == s[i..];
        }
        if i, t :| 0 <= i <= |s[1..]| && ReferenceAt(s[1..][i..], t) {
          assert s[1..][i..] == s[i + 1..];
        }
        assert HasReference(ts) <==> HasReference(ts[1..]) by {
          if i :| 0 <= i < |ts| && ts[i].Reference? { assert ts[1..][i - 1].Reference?; }
          if i :| 0 <= i < |ts[1..]| && ts[1..][i].Reference? { assert ts[i + 1].Reference?; }
        }
      }
    }
  }
}
