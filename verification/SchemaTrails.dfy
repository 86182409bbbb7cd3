/** What a schema documents: a field path is documented when a trail leads to it.

A trail is a sequence of single moves through an OpenAPI document, chosen one at a time. It knows
nothing of the recursion, the accumulator or the iteration order of the program that collects
the paths (module SchemaFlattener), which is proved to find exactly the paths trails lead to. */
module SchemaTrails {
  import opened Json
  import opened Paths

  // A property is added at this nesting depth or above it, never below.
  const MAX_DEPTH: nat := 8

  datatype Step =
    | FollowRef
    | IntoItems
    | IntoMember(keyword: string, index: nat)
    | IntoProperty(name: string)

  predicate IsRef(node: Json) {
    node.Object? && "$ref" in node.fields && node.fields["$ref"].String?
  }

  function RefText(node: Json): string
    requires IsRef(node)
  {
    node.fields["$ref"].s
  }

  predicate HasItems(node: Json) {
    node.Object? && "items" in node.fields && node.fields["items"].Object?
  }

  predicate HasMembers(node: Json, keyword: string) {
    && node.Object?
    && (keyword == "allOf" || keyword == "anyOf" || keyword == "oneOf")
    && keyword in node.fields && node.fields[keyword].Array?
  }

  predicate HasProperties(node: Json) {
    node.Object? && "properties" in node.fields && node.fields["properties"].Object?
  }

  // Keywords beside a `$ref` are ignored.
  predicate CanStep(node: Json, step: Step) {
    match step
    case FollowRef => IsRef(node)
    case IntoItems => !IsRef(node) && HasItems(node)
    case IntoMember(keyword, i) =>
      !IsRef(node) && HasMembers(node, keyword) &&
      i < |node.fields[keyword].items| && node.fields[keyword].items[i].Object?
    case IntoProperty(name) =>
      !IsRef(node) && HasProperties(node) && name in node.fields["properties"].fields
  }

  // The name of the component a reference points to: what follows its last slash.
  function LastSegment(ref: string): (r: string)
    ensures '/' !in r
    ensures r == ref || exists k :: 0 <= k < |ref| && ref[k] == '/' && r == ref[k + 1..]
  {
    if ref == "" then ""
    else if '/' in ref[1..] then
      var r := LastSegment(ref[1..]);
      assert exists k :: 0 <= k < |ref| && ref[k] == '/' && r == ref[k + 1..] by {
        var k :| 0 <= k < |ref[1..]| && ref[1..][k] == '/' && r == ref[1..][k + 1..];
        assert ref[k + 1] == '/' && ref[k + 2..] == ref[1..][k + 1..];
      }
      r
    else if ref[0] == '/' then ref[1..]
    else ref
  }

  // Null stands for the nil map an unresolvable reference yields.
  function ResolveRef(ref: string, comps: map<string, Json>): (r: Json)
    ensures r.Object? || r.Null?
  {
    var name := LastSegment(ref);
    if name in comps && comps[name].Object? then comps[name] else Null
  }

  function Target(node: Json, step: Step, comps: map<string, Json>): Json
    requires CanStep(node, step)
  {
    match step
    case FollowRef => ResolveRef(RefText(node), comps)
    case IntoItems => node.fields["items"]
    case IntoMember(keyword, i) => node.fields[keyword].items[i]
    case IntoProperty(name) => node.fields["properties"].fields[name]
  }

  predicate IsTrail(node: Json, trail: seq<Step>, comps: map<string, Json>)
    decreases |trail|
  {
    trail == [] || (CanStep(node, trail[0]) && IsTrail(Target(node, trail[0], comps), trail[1..], comps))
  }

  // The reference strings a trail follows, in order and in full.
  function Refs(node: Json, trail: seq<Step>, comps: map<string, Json>): seq<string>
    requires IsTrail(node, trail, comps)
    decreases |trail|
  {
    if trail == [] then []
    else (if trail[0].FollowRef? then [RefText(node)] else []) + Refs(Target(node, trail[0], comps), trail[1..], comps)
  }

  // The property names a trail passes.
  function Names(trail: seq<Step>): seq<string> {
    if trail == [] then []
    else (if trail[0].IntoProperty? then [trail[0].name] else []) + Names(trail[1..])
  }

  /** A trail to a property that repeats no reference, avoids those already `seen`, and stays within the bound. */
  ghost predicate Derivation(node: Json, comps: map<string, Json>, seen: set<string>, depth: nat, trail: seq<Step>) {
    && trail != [] && trail[|trail| - 1].IntoProperty?
    && IsTrail(node, trail, comps)
    && NoDuplicates(Refs(node, trail, comps))
    && (forall r :: r in Refs(node, trail, comps) ==> r !in seen)
    && depth + |Names(trail)| <= MAX_DEPTH + 1
  }

  ghost predicate Derives(node: Json, prefix: string, comps: map<string, Json>, seen: set<string>, depth: nat, path: string) {
    exists trail :: Derivation(node, comps, seen, depth, trail) && path == PathText(prefix, Names(trail))
  }

  /** `path` is one of the fields `schema` documents. */
  ghost predicate Documented(schema: Json, comps: map<string, Json>, path: string) {
    Derives(schema, "", comps, {}, 0, path)
  }

  // What the first step of a trail leaves to be derived.
  ghost predicate DerivesBy(node: Json, step: Step, prefix: string, comps: map<string, Json>, seen: set<string>, depth: nat, path: string) {
    CanStep(node, step) &&
    var next := Target(node, step, comps);
    match step
    case FollowRef => RefText(node) !in seen && Derives(next, prefix, comps, seen + {RefText(node)}, depth, path)
    case IntoProperty(name) =>
      depth <= MAX_DEPTH &&
      (path == Extend(prefix, name) || Derives(next, Extend(prefix, name), comps, seen, depth + 1, path))
    case _ => Derives(next, prefix, comps, seen, depth, path)
  }

  // The state of the search after a step: references seen, depth, and path prefix.
  function SeenAfter(node: Json, step: Step, seen: set<string>): set<string>
    requires CanStep(node, step)
  {
    if step.FollowRef? then seen + {RefText(node)} else seen
  }

  function DepthAfter(step: Step, depth: nat): nat {
    if step.IntoProperty? then depth + 1 else depth
  }

  function PrefixAfter(step: Step, prefix: string): string {
    if step.IntoProperty? then Extend(prefix, step.name) else prefix
  }

  lemma PathTextAfter(step: Step, rest: seq<Step>, prefix: string)
    ensures PathText(prefix, Names([step] + rest)) == PathText(PrefixAfter(step, prefix), Names(rest))
  {
    assert ([step] + rest)[1..] == rest;
    if step.IntoProperty? {
      assert Names([step] + rest)[1..] == Names(rest);
    } else {
      assert Names([step] + rest) == Names(rest);
    }
  }

  lemma RestIsDerivation(node: Json, comps: map<string, Json>, seen: set<string>, depth: nat, step: Step, rest: seq<Step>)
    requires rest != [] && Derivation(node, comps, seen, depth, [step] + rest)
    ensures CanStep(node, step) && (step.FollowRef? ==> RefText(node) !in seen)
    ensures Derivation(Target(node, step, comps), comps, SeenAfter(node, step, seen), DepthAfter(step, depth), rest)
  {
    var trail := [step] + rest;
    assert trail[0] == step && trail[1..] == rest && rest[|rest| - 1] == trail[|trail| - 1];
    var refs, tail := Refs(node, trail, comps), Refs(Target(node, step, comps), rest, comps);
    if step.FollowRef? {
      assert refs == [RefText(node)] + tail;
      assert refs[0] == RefText(node);
      forall r | r in tail ensures r !in seen && r != RefText(node) {
        var i :| 0 <= i < |tail| && tail[i] == r;
        assert refs[i + 1] == r;
      }
      assert forall i :: 0 <= i < |tail| ==> tail[i] == refs[i + 1];
    } else {
      assert refs == tail;
    }
  }

  lemma FirstStep(node: Json, prefix: string, comps: map<string, Json>, seen: set<string>, depth: nat, trail: seq<Step>)
    requires Derivation(node, comps, seen, depth, trail)
    ensures DerivesBy(node, trail[0], prefix, comps, seen, depth, PathText(prefix, Names(trail)))
  {
    var step, rest := trail[0], trail[1..];
    assert trail == [step] + rest;
    PathTextAfter(step, rest, prefix);
    if rest != [] {
      RestIsDerivation(node, comps, seen, depth, step, rest);
      var path := PathText(PrefixAfter(step, prefix), Names(rest));
      assert Derives(Target(node, step, comps), PrefixAfter(step, prefix), comps,
                     SeenAfter(node, step, seen), DepthAfter(step, depth), path);
      if step.IntoProperty? {
        assert depth + 1 + |Names(rest)| <= MAX_DEPTH + 1;
      }
    }
  }

  lemma PrependStep(node: Json, step: Step, comps: map<string, Json>, seen: set<string>, depth: nat, rest: seq<Step>)
    requires CanStep(node, step)
    requires step.FollowRef? ==> RefText(node) !in seen
    requires Derivation(Target(node, step, comps), comps, SeenAfter(node, step, seen), DepthAfter(step, depth), rest)
    ensures Derivation(node, comps, seen, depth, [step] + rest)
  {
    var trail := [step] + rest;
    assert trail[1..] == rest;
    assert IsTrail(node, trail, comps);
    var refs, tail := Refs(node, trail, comps), Refs(Target(node, step, comps), rest, comps);
    assert refs == (if step.FollowRef? then [RefText(node)] else []) + tail;
    assert forall r :: r in tail ==> r !in seen && (step.FollowRef? ==> r != RefText(node));
  }

  lemma PropertyAlone(node: Json, name: string, comps: map<string, Json>, seen: set<string>, depth: nat)
    requires CanStep(node, IntoProperty(name)) && depth <= MAX_DEPTH
    ensures Derivation(node, comps, seen, depth, [IntoProperty(name)]) && Names([IntoProperty(name)]) == [name]
  {
    var trail := [IntoProperty(name)];
    assert trail[1..] == [];
    assert IsTrail(node, trail, comps);
    assert Refs(node, trail, comps) == [];
  }

  lemma DerivesByImpliesDerives(node: Json, step: Step, prefix: string, comps: map<string, Json>, seen: set<string>, depth: nat, path: string)
    requires DerivesBy(node, step, prefix, comps, seen, depth, path)
    ensures Derives(node, prefix, comps, seen, depth, path)
  {
    if step.IntoProperty? && path == Extend(prefix, step.name) {
      PropertyAlone(node, step.name, comps, seen, depth);
      assert PathText(prefix, [step.name]) == path;
    } else {
      var rest :| Derivation(Target(node, step, comps), comps, SeenAfter(node, step, seen), DepthAfter(step, depth), rest)
               && path == PathText(PrefixAfter(step, prefix), Names(rest));
      PrependStep(node, step, comps, seen, depth, rest);
      PathTextAfter(step, rest, prefix);
    }
  }

  /** A path is derived exactly when some first step leaves it to be derived. */
  lemma DerivesExactlyByAStep(node: Json, prefix: string, comps: map<string, Json>, seen: set<string>, depth: nat, path: string)
    ensures Derives(node, prefix, comps, seen, depth, path)
        <==> exists step :: DerivesBy(node, step, prefix, comps, seen, depth, path)
  {
    if Derives(node, prefix, comps, seen, depth, path) {
      var trail :| Derivation(node, comps, seen, depth, trail) && path == PathText(prefix, Names(trail));
      FirstStep(node, prefix, comps, seen, depth, trail);
    }
    if step :| DerivesBy(node, step, prefix, comps, seen, depth, path) {
      DerivesByImpliesDerives(node, step, prefix, comps, seen, depth, path);
    }
  }

  // ---------------------------------------------------------------- the references of a document

  /** Every reference string written anywhere in a document: the bound on how often one can be followed. */
  ghost function RefTexts(node: Json): set<string> {
    match node
    case Array(items) => set i, r | 0 <= i < |items| && r in RefTexts(items[i]) :: r
    case Object(fields) =>
      (if IsRef(node) then {RefText(node)} else {}) + set k, r | k in fields && r in RefTexts(fields[k]) :: r
    case _ => {}
  }

  lemma RefTextsBelow(node: Json, step: Step, comps: map<string, Json>)
    requires CanStep(node, step) && !step.FollowRef?
    ensures RefTexts(Target(node, step, comps)) <= RefTexts(node)
  {
    match step
    case FollowRef => assert false;
    case IntoItems =>
    case IntoMember(keyword, i) => assert RefTexts(node.fields[keyword].items[i]) <= RefTexts(node.fields[keyword]);
    case IntoProperty(name) => assert RefTexts(node.fields["properties"].fields[name]) <= RefTexts(node.fields["properties"]);
  }

  lemma RefTextsOfComponent(ref: string, comps: map<string, Json>)
    ensures RefTexts(ResolveRef(ref, comps)) <= RefTexts(Object(comps))
  {
  }
}
