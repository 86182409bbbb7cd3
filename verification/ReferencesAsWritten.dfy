/** Environment references on the characters they are written in: which texts in braces are references, what they are
replaced by, and which stay as they are (internal/utils/env.go). */
module ReferencesAsWritten {
  import opened Wrappers
  import opened EnvReferences
  import opened EnvExpansion

  // The names of variables: a letter or underscore, then letters, digits and underscores.
  predicate Identifier(name: string) {
    && name != ""
    && ('A' <= name[0] <= 'Z' || 'a' <= name[0] <= 'z' || name[0] == '_')
    && forall i :: 0 < i < |name| ==>
         'A' <= name[i] <= 'Z' || 'a' <= name[i] <= 'z' || name[i] == '_' || '0' <= name[i] <= '9'
  }

  lemma IdentifiersAreNames(name: string)
    ensures Identifier(name) <==> IsName(name)
  {
  }

  /** What a reference is: `${NAME}`, or `${NAME:-default}` with no closing brace in the default. */
  lemma ReferenceAsWritten(s: string, t: Token)
    ensures ReferenceAt(s, t) <==>
            t.Reference? && Identifier(t.name) &&
            match t.fallback
            case None => "${" + t.name + "}" <= s
            case Some(default) => '}' !in default && "${" + t.name + ":-" + default + "}" <= s
  {
    if t.Reference? {
      IdentifiersAreNames(t.name);
      if t.fallback.Some? {
        assert "${" + t.name + ":-" + t.fallback.value + "}" == Text(t);
      }
    }
  }

  lemma ExpandOneReference(env: Env, t: Token)
    requires t.Reference? && WellFormed(t)
    ensures Expand(env, Text(t)) == if IsMissing(env, t) then Err([t.name]) else Ok(Value(env, t))
  {
    TokensOfReference(t);
    MeaningOfAppend(env, [], t);
    assert [] + [t] == [t];
    assert Expansion(env, [t]) == "" + Value(env, t) == Value(env, t);
    assert MissingNames(env, [t]) == if IsMissing(env, t) then [t.name] else [];
  }

  /** `${NAME}` becomes the variable's value, empty or not, and is an error that names the variable when it is unset. */
  lemma ExpandName(env: Env, name: string)
    requires Identifier(name)
    ensures name in env ==> Expand(env, "${" + name + "}") == Ok(env[name])
    ensures name !in env ==> Expand(env, "${" + name + "}") == Err([name])
  {
    var t := Reference(name, None);
    ExpandOneReference(env, t);
    assert Text(t) == "${" + name + "}";
  }

  lemma TextWithDefault(name: string, default: string)
    ensures Text(Reference(name, Some(default))) == "${" + name + ":-" + default + "}"
  {
    assert Closing(Some(default)) == ":-" + default + "}";
  }

  /** `${NAME:-default}` becomes the variable's value when that is not empty, and else the default. */
  lemma ExpandNameWithDefault(env: Env, name: string, default: string)
    requires Identifier(name) && '}' !in default
    ensures name in env && env[name] != "" ==> Expand(env, "${" + name + ":-" + default + "}") == Ok(env[name])
    ensures name !in env || env[name] == "" ==> Expand(env, "${" + name + ":-" + default + "}") == Ok(default)
  {
    TextWithDefault(name, default);
    ExpandOneReference(env, Reference(name, Some(default)));
  }

  // ---------------------------------------------------------------- what stays literal

  // Neither `NAME` nor `NAME:-...` starts the text, up to the brace.
  ghost predicate NoReferenceIn(body: string) {
    forall name :: Identifier(name) ==> !(name + "}" <= body + "}") && !(name + ":-" <= body)
  }

  lemma DollarOnlyFirst(body: string)
    requires '$' !in body
    ensures var s := "${" + body + "}"; forall i :: 0 < i < |s| ==> s[i] != '$'
  {
    var s := "${" + body + "}";
    assert forall i :: 2 <= i < |s| - 1 ==> s[i] == body[i - 2];
  }

  lemma StartOfDefault(name: string, default: string, body: string)
    requires Identifier(name) && name + ":-" + default + "}" <= body + "}"
    ensures name + ":-" <= body
  {
    var n := |name|;
    var whole, text := name + ":-" + default + "}", body + "}";
    assert n + 2 < |whole| <= |text|;
    assert name + ":-" == whole[..n + 2] == text[..n + 2] == body[..n + 2];
  }

  lemma AfterOpening(u: string, body: string)
    requires "${" + u <= "${" + body + "}"
    ensures u <= body + "}"
  {
    var s, whole := "${" + u, "${" + body + "}";
    assert u == s[2..] && body + "}" == whole[2..];
    assert s == whole[..|s|];
  }

  lemma NameWithin(name: string, body: string)
    requires "${" + name + "}" <= "${" + body + "}"
    ensures name + "}" <= body + "}"
  {
    assert "${" + name + "}" == "${" + (name + "}");
    AfterOpening(name + "}", body);
  }

  lemma DefaultWithin(name: string, default: string, body: string)
    requires Identifier(name) && "${" + name + ":-" + default + "}" <= "${" + body + "}"
    ensures name + ":-" <= body
  {
    var u := name + ":-" + default + "}";
    assert "${" + name + ":-" + default + "}" == "${" + u;
    AfterOpening(u, body);
    StartOfDefault(name, default, body);
  }

  lemma NoReferenceAtOpening(body: string, t: Token)
    requires NoReferenceIn(body)
    ensures !ReferenceAt("${" + body + "}", t)
  {
    ReferenceAsWritten("${" + body + "}", t);
    if t.Reference? && Identifier(t.name) {
      match t.fallback
      case None =>
        if "${" + t.name + "}" <= "${" + body + "}" {
          NameWithin(t.name, body);
        }
      case Some(default) =>
        if "${" + t.name + ":-" + default + "}" <= "${" + body + "}" {
          DefaultWithin(t.name, default, body);
        }
    }
  }

  /** A text in braces that is no name, nor a name with a default, stays as it is. */
  lemma BracesStayLiteral(env: Env, body: string)
    requires '$' !in body && NoReferenceIn(body)
    ensures Expand(env, "${" + body + "}") == Ok("${" + body + "}")
  {
    var s := "${" + body + "}";
    DollarOnlyFirst(body);
    forall i, t | 0 <= i <= |s| ensures !ReferenceAt(s[i..], t) {
      if ReferenceAt(s[i..], t) {
        assert Text(t)[0] == '$' == s[i..][0];
        assert s[0..] == s;
        NoReferenceAtOpening(body, t);
      }
    }
    ExpandWithoutReference(env, s);
  }

  lemma NameStarts(name: string, after: string, text: string)
    requires Identifier(name) && name + after <= text
    ensures text != "" && ('A' <= text[0] <= 'Z' || 'a' <= text[0] <= 'z' || text[0] == '_')
  {
    assert (name + after)[0] == name[0];
  }

  /** So does one that does not start with a letter or underscore, a digit included. */
  lemma NoNameStart(env: Env, body: string)
    requires '$' !in body
    requires body == "" || !('A' <= body[0] <= 'Z' || 'a' <= body[0] <= 'z' || body[0] == '_')
    ensures Expand(env, "${" + body + "}") == Ok("${" + body + "}")
  {
    forall name | Identifier(name) ensures !(name + "}" <= body + "}") && !(name + ":-" <= body) {
      if name + "}" <= body + "}" {
        NameStarts(name, "}", body + "}");
      } else if name + ":-" <= body {
        NameStarts(name, ":-", body);
      }
    }
    BracesStayLiteral(env, body);
  }

  /** So does one that holds any other character, unless `:-` and a default start there. */
  lemma OtherCharacter(env: Env, body: string, k: nat)
    requires '$' !in body && k < |body| && '}' !in body[..k + 1]
    requires !('A' <= body[k] <= 'Z' || 'a' <= body[k] <= 'z' || body[k] == '_' || '0' <= body[k] <= '9')
    requires forall i :: 0 <= i <= k && i + 1 < |body| ==> !(body[i] == ':' && body[i + 1] == '-')
    ensures Expand(env, "${" + body + "}") == Ok("${" + body + "}")
  {
    assert forall i :: 0 <= i <= k ==> (body + "}")[i] == body[..k + 1][i] != '}';
    forall name | Identifier(name) ensures !(name + "}" <= body + "}") && !(name + ":-" <= body) {
      if name + "}" <= body + "}" {
        NameEnds(name, "}", body + "}", k);
      } else if name + ":-" <= body {
        NameEnds(name, ":-", body, k);
      }
    }
    BracesStayLiteral(env, body);
  }

  // A name that starts a text ends no later than a character no name holds.
  lemma NameEnds(name: string, after: string, text: string, k: nat)
    requires Identifier(name) && after != "" && name + after <= text && k < |text|
    requires !('A' <= text[k] <= 'Z' || 'a' <= text[k] <= 'z' || text[k] == '_' || '0' <= text[k] <= '9')
    ensures |name| <= k && |name + after| <= |text| && text[|name|] == after[0]
    ensures |after| > 1 ==> text[|name| + 1] == after[1]
  {
    var start := name + after;
    assert forall i :: 0 <= i < |start| ==> start[i] == text[i];
    assert forall i :: 0 <= i < |name| ==> start[i] == name[i];
    assert forall i :: 0 <= i < |after| ==> start[|name| + i] == after[i];
  }
}
