/** Substitution of environment references in configuration strings (internal/utils/env.go). */
module EnvExpansion {
  import opened Wrappers
  import opened EnvReferences

  type Env = map<string, string>

  // ---------------------------------------------------------------- meaning of a reading

  // Unset or empty falls back; without a fallback the variable's own value counts, empty included.
  function Value(env: Env, t: Token): string {
    match t
    case Character(c) => [c]
    case Reference(name, fallback) =>
      if name in env && env[name] != "" then env[name]
      else if fallback.Some? then fallback.value
      else ""
  }

  predicate IsMissing(env: Env, t: Token) {
    t.Reference? && t.fallback.None? && t.name !in env
  }

  function Expansion(env: Env, ts: seq<Token>): string {
    if ts == [] then "" else Value(env, ts[0]) + Expansion(env, ts[1..])
  }

  // The unset variables that have no fallback, in order of occurrence.
  function MissingNames(env: Env, ts: seq<Token>): seq<string> {
    if ts == [] then []
    else (if IsMissing(env, ts[0]) then [ts[0].name] else []) + MissingNames(env, ts[1..])
  }

  function Expand(env: Env, s: string): Result<string, seq<string>> {
    var ts := Tokens(s);
    if MissingNames(env, ts) == [] then Ok(Expansion(env, ts)) else Err(MissingNames(env, ts))
  }

  lemma {:induction false} MeaningOfAppend(env: Env, ts: seq<Token>, t: Token)
    ensures Expansion(env, ts + [t]) == Expansion(env, ts) + Value(env, t)
    ensures MissingNames(env, ts + [t]) == MissingNames(env, ts) + if IsMissing(env, t) then [t.name] else []
  {
    if ts == [] {
      assert ([] + [t])[1..] == [];
    } else {
      assert (ts + [t])[1..] == ts[1..] + [t];
      MeaningOfAppend(env, ts[1..], t);
    }
  }

  // ---------------------------------------------------------------- the scanner

  method ScanName(s: string, start: nat) returns (end: nat)
    requires start <= |s|
    ensures end == start + NameRun(s[start..])
  {
    end := start;
    while end < |s| && IsNamePart(s[end])
      invariant start <= end <= |s|
      invariant NameRun(s[start..]) == end - start + NameRun(s[end..])
    {
      assert s[end..][1..] == s[end + 1..];
      end := end + 1;
    }
  }

  method ScanToBrace(s: string, start: nat) returns (end: nat)
    requires start <= |s|
    ensures end == start + BraceAt(s[start..])
  {
    end := start;
    while end < |s| && s[end] != '}'
      invariant start <= end <= |s|
      invariant BraceAt(s[start..]) == end - start + BraceAt(s[end..])
    {
      assert s[end..][1..] == s[end + 1..];
      end := end + 1;
    }
  }

  // Matches the closing part of a reference at position `n`; `end` is the position after it.
  method ScanClosing(s: string, n: nat) returns (fallback: Option<Option<string>>, end: nat)
    requires n <= |s|
    ensures fallback == MatchClosing(s[n..])
    ensures fallback.Some? ==> end == n + |Closing(fallback.value)|
  {
    end := n;
    if n < |s| && s[n] == '}' {
      return Some(None), n + 1;
    }
    if n + 1 < |s| && s[n] == ':' && s[n + 1] == '-' {
      assert s[n..][2..] == s[n + 2..];
      var b := ScanToBrace(s, n + 2);
      if b < |s| {
        assert s[n + 2..][..b - n - 2] == s[n + 2..b];
        return Some(Some(s[n + 2..b])), b + 1;
      }
    }
    return None, n;
  }

  // With the name found to end at `n`, the match is settled by what closes it.
  lemma MatchFrom(s: string, i: nat, n: nat)
    requires i + 2 < |s| && s[i] == '$' && s[i + 1] == '{' && IsNameStart(s[i + 2])
    requires n == i + 2 + NameRun(s[i + 2..])
    ensures n <= |s|
    ensures Match(s[i..]) == match MatchClosing(s[n..])
                             case Some(fallback) => Some(Reference(s[i + 2..n], fallback))
                             case None => None
  {
    assert s[i..][2..] == s[i + 2..];
    assert s[i + 2..][n - i - 2..] == s[n..];
    assert s[i + 2..][..n - i - 2] == s[i + 2..n];
  }

  lemma LengthOfReference(name: string, fallback: Option<string>)
    ensures |Text(Reference(name, fallback))| == 2 + |name| + |Closing(fallback)|
  {
  }

  /** Matches a reference at position `i` of `s`; `end` is the position after it. */
  method ScanReference(s: string, i: nat) returns (t: Option<Token>, end: nat)
    requires i <= |s|
    ensures t == Match(s[i..])
    ensures t.Some? ==> end == i + |Text(t.value)|
  {
    end := i;
    if i + 2 >= |s| || s[i] != '$' || s[i + 1] != '{' || !IsNameStart(s[i + 2]) {
      return None, i;
    }
    var n := ScanName(s, i + 2);
    MatchFrom(s, i, n);
    var fallback;
    fallback, end := ScanClosing(s, n);
    if fallback.None? {
      return None, end;
    }
    LengthOfReference(s[i + 2..n], fallback.value);
    return Some(Reference(s[i + 2..n], fallback.value)), end;
  }

  // The first token of the reading of a non-empty string.
  function NextToken(s: string): (t: Token)
    requires s != ""
    ensures |Text(t)| <= |s|
  {
    MatchIsSound(s);
    match Match(s)
    case Some(t) => t
    case None => Character(s[0])
  }

  lemma TokensFrom(s: string, i: nat, t: Token, end: nat)
    requires i < |s| && t == NextToken(s[i..]) && end == i + |Text(t)|
    ensures end <= |s| && Tokens(s[i..]) == [t] + Tokens(s[end..])
  {
    assert s[i..][|Text(t)|..] == s[end..];
    MatchIsSound(s[i..]);
  }

  // Of the reading `all`, `done` has been read and `left` is to be read.
  ghost predicate Progress(env: Env, all: seq<Token>, done: seq<Token>, left: seq<Token>, out: string, missing: seq<string>) {
    all == done + left && out == Expansion(env, done) && missing == MissingNames(env, done)
  }

  lemma Advance(env: Env, all: seq<Token>, done: seq<Token>, t: Token, rest: seq<Token>, out: string, missing: seq<string>)
    requires Progress(env, all, done, [t] + rest, out, missing)
    ensures Progress(env, all, done + [t], rest, out + Value(env, t), missing + if IsMissing(env, t) then [t.name] else [])
  {
    assert done + ([t] + rest) == done + [t] + rest;
    MeaningOfAppend(env, done, t);
  }

  // The text put in place of one reference; an unset variable without default is added to `missing`.
  method Replace(env: Env, name: string, fallback: Option<string>, missing: seq<string>)
    returns (value: string, missing': seq<string>)
    ensures value == Value(env, Reference(name, fallback))
    ensures missing' == missing + if IsMissing(env, Reference(name, fallback)) then [name] else []
  {
    if name in env && env[name] != "" {
      return env[name], missing;
    }
    if fallback.Some? {
      return fallback.value, missing;
    }
    return "", if name !in env then missing + [name] else missing;
  }

  // Reads the token at position `i`, replaces it, and moves on to `end`.
  method ReplaceNext(env: Env, s: string, i: nat, out: string, missing: seq<string>)
    returns (out': string, missing': seq<string>, end: nat)
    requires i < |s|
    ensures var t := NextToken(s[i..]);
            && end == i + |Text(t)|
            && out' == out + Value(env, t)
            && missing' == missing + if IsMissing(env, t) then [t.name] else []
  {
    var t;
    t, end := ScanReference(s, i);
    if t.Some? {
      var value;
      value, missing' := Replace(env, t.value.name, t.value.fallback, missing);
      out' := out + value;
    } else {
      out', missing', end := out + [s[i]], missing, i + 1;
    }
  }

  /** Replaces the references of `s` from left to right in one pass, or lists the unset variables. */
  method ExpandEnv(env: Env, s: string) returns (r: Result<string, seq<string>>)
    ensures r == Expand(env, s)
  {
    var out, missing := "", [];
    var i := 0;
    ghost var all, done, left: seq<Token> := Tokens(s), [], Tokens(s);
    assert s[0..] == s;
    while i < |s|
      invariant i <= |s| && left == Tokens(s[i..])
      invariant Progress(env, all, done, left, out, missing)
      decreases |s| - i
    {
      ghost var t := NextToken(s[i..]);
      var out', missing', end := ReplaceNext(env, s, i, out, missing);
      TokensFrom(s, i, t, end);
      ghost var rest := Tokens(s[end..]);
      Advance(env, all, done, t, rest, out, missing);
      done, left := done + [t], rest;
      out, missing, i := out', missing', end;
    }
    assert done + [] == done;
    return if missing == [] then Ok(out) else Err(missing);
  }

  /** The result is the meaning of the one reading of `s`, whichever way that reading is found. */
  lemma ExpandFollowsTheReading(env: Env, s: string, ts: seq<Token>)
    requires IsTokenisation(s, ts)
    ensures Expand(env, s) == if MissingNames(env, ts) == [] then Ok(Expansion(env, ts)) else Err(MissingNames(env, ts))
  {
    TokenisationIsUnique(s, ts);
  }

  predicate AnyMissing(env: Env, ts: seq<Token>) {
    exists i :: 0 <= i < |ts| && IsMissing(env, ts[i])
  }

  lemma {:induction false} MissingExactly(env: Env, ts: seq<Token>)
    ensures MissingNames(env, ts) != [] <==> AnyMissing(env, ts)
  {
    if ts != [] {
      MissingExactly(env, ts[1..]);
      if i :| 0 <= i < |ts| && IsMissing(env, ts[i]) {
        assert i > 0 ==> IsMissing(env, ts[1..][i - 1]);
      }
      if i :| 0 <= i < |ts[1..]| && IsMissing(env, ts[1..][i]) {
        assert IsMissing(env, ts[i + 1]);
      }
    }
  }

  /** Expansion fails exactly when some reference of the reading names an unset variable and has no default. */
  lemma ExpandFailsExactlyOnUnset(env: Env, s: string, ts: seq<Token>)
    requires IsTokenisation(s, ts)
    ensures Expand(env, s).Err? <==> AnyMissing(env, ts)
  {
    TokenisationIsUnique(s, ts);
    MissingExactly(env, ts);
  }

  lemma {:induction false} PlainTokensMeanThemselves(env: Env, ts: seq<Token>)
    requires !HasReference(ts)
    ensures Expansion(env, ts) == Print(ts) && MissingNames(env, ts) == []
  {
    if ts != [] {
      assert ts[0].Character?;
      assert forall i :: 0 <= i < |ts[1..]| ==> ts[1..][i] == ts[i + 1];
      PlainTokensMeanThemselves(env, ts[1..]);
    }
  }

  /** A string without references is left alone. */
  lemma ExpandWithoutReference(env: Env, s: string)
    requires !ContainsReference(s)
    ensures Expand(env, s) == Ok(s)
  {
    ReferenceOccursExactlyInTokens(s);
    TokensAreATokenisation(s);
    PlainTokensMeanThemselves(env, Tokens(s));
  }

  // ---------------------------------------------------------------- credentials

  datatype SecretError = Unset(names: seq<string>) | EmptyReference(field: string)

  function ExpandSecret(env: Env, field: string, s: string): Result<string, SecretError> {
    match Expand(env, s)
    case Err(names) => Err(Unset(names))
    case Ok(out) => if out == "" && HasReference(Tokens(s)) then Err(EmptyReference(field)) else Ok(out)
  }

  // Whether a reference occurs anywhere in `s`: the unanchored search.
  method MatchesSomewhere(s: string) returns (b: bool)
    ensures b <==> ContainsReference(s)
  {
    for i := 0 to |s| + 1
      invariant forall j, t :: 0 <= j < i ==> !ReferenceAt(s[j..], t)
    {
      var t, _ := ScanReference(s, i);
      forall u { MatchIsExact(s[i..], u); }
      if t.Some? {
        return true;
      }
    }
    return false;
  }

  method ExpandEnvSecret(env: Env, field: string, s: string) returns (r: Result<string, SecretError>)
    ensures r == ExpandSecret(env, field, s)
  {
    var out := ExpandEnv(env, s);
    if out.Err? {
      return Err(Unset(out.error));
    }
    if out.value == "" {
      var found := MatchesSomewhere(s);
      ReferenceOccursExactlyInTokens(s);
      if found {
        return Err(EmptyReference(field));
      }
    }
    return Ok(out.value);
  }

  /** A credential is empty only where it was written empty. */
  lemma SecretIsEmptyExactlyWhenWrittenEmpty(env: Env, field: string, s: string)
    ensures ExpandSecret(env, field, s) == Ok("") <==> s == ""
  {
    if s != "" && !HasReference(Tokens(s)) {
      ReferenceOccursExactlyInTokens(s);
      ExpandWithoutReference(env, s);
    }
  }

  // ---------------------------------------------------------------- expanding twice

  /** The text substituted for a lone set variable is its value, not a reading of that value. */
  lemma ExpandLoneReference(env: Env, name: string)
    requires IsName(name) && name in env && env[name] != ""
    ensures Expand(env, Text(Reference(name, None))) == Ok(env[name])
  {
    var t := Reference(name, None);
    TokensOfReference(t);
    MeaningOfAppend(env, [], t);
    assert [] + [t] == [t] && "" + env[name] == env[name];
  }

  lemma {:induction false} ExpansionHasNoDollar(env: Env, ts: seq<Token>)
    requires forall i :: 0 <= i < |ts| ==> '$' !in Value(env, ts[i])
    ensures '$' !in Expansion(env, ts)
  {
    if ts != [] {
      assert forall i :: 0 <= i < |ts[1..]| ==> ts[1..][i] == ts[i + 1];
      ExpansionHasNoDollar(env, ts[1..]);
    }
  }

  lemma ReferenceHoldsDollar(s: string)
    requires ContainsReference(s)
    ensures '$' in s
  {
    var i, t :| 0 <= i <= |s| && ReferenceAt(s[i..], t);
    assert Text(t)[0] == '$' == s[i..][0];
  }

  /** Expansion is idempotent when no plain character, value or default in use holds a dollar sign. */
  lemma ExpandTwiceWithoutDollars(env: Env, s: string)
    requires Expand(env, s).Ok?
    requires forall i :: 0 <= i < |Tokens(s)| ==> '$' !in Value(env, Tokens(s)[i])
    ensures Expand(env, Expand(env, s).value) == Expand(env, s)
  {
    ExpansionHasNoDollar(env, Tokens(s));
    var out := Expand(env, s).value;
    if ContainsReference(out) {
      ReferenceHoldsDollar(out);
      assert false;
    }
    ExpandWithoutReference(env, out);
  }
}
