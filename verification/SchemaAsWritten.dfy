/** What an OpenAPI document's own keywords say: trails, references and response schemas on the words and the
bound the program uses (tools/extract-schemas/main.go). */
module SchemaAsWritten {
  import opened Wrappers
  import opened Json
  import opened Paths
  import opened SchemaTrails
  import opened SchemaGeneration

  // ---------------------------------------------------------------- references

  lemma {:induction false} LastSegmentOf(p: string, name: string)
    requires '/' !in name
    ensures LastSegment(p + "/" + name) == name
  {
    var ref := p + "/" + name;
    if p == "" {
      assert ref[1..] == name;
    } else {
      assert ref[1..] == p[1..] + "/" + name;
      assert ref[1..][|p| - 1] == '/';
      LastSegmentOf(p[1..], name);
    }
  }

  lemma {:induction false} LastSegmentOfName(name: string)
    requires '/' !in name
    ensures LastSegment(name) == name
  {
    if name != "" {
      assert name[0] != '/' && '/' !in name[1..];
    }
  }

  /** A reference leads to the component named after its last slash, if that is an object, and else to nothing. */
  lemma ReferenceLeadsTo(node: Json, comps: map<string, Json>, ref: string, p: string, name: string)
    requires node.Object? && "$ref" in node.fields && node.fields["$ref"] == String(ref)
    requires '/' !in name && (ref == p + "/" + name || ref == name)
    ensures CanStep(node, FollowRef)
    ensures name in comps && comps[name].Object? ==> Target(node, FollowRef, comps) == comps[name]
    ensures !(name in comps && comps[name].Object?) ==> Target(node, FollowRef, comps) == Null
  {
    if ref == name {
      LastSegmentOfName(name);
    } else {
      LastSegmentOf(p, name);
    }
  }

  // ---------------------------------------------------------------- what is derived, keyword by keyword

  lemma NothingBelowNoObject(node: Json, prefix: string, comps: map<string, Json>, seen: set<string>, depth: nat, path: string)
    requires !node.Object?
    ensures !Derives(node, prefix, comps, seen, depth, path)
  {
    DerivesExactlyByAStep(node, prefix, comps, seen, depth, path);
  }

  /** A node with a `$ref` derives what the named component does once the reference counts as seen, and nothing else:
  keywords beside the reference play no part. */
  lemma DerivesByReference(node: Json, prefix: string, comps: map<string, Json>, seen: set<string>, depth: nat, path: string,
                           ref: string, p: string, name: string)
    requires node.Object? && "$ref" in node.fields && node.fields["$ref"] == String(ref)
    requires '/' !in name && (ref == p + "/" + name || ref == name)
    ensures Derives(node, prefix, comps, seen, depth, path)
        <==> && ref !in seen && name in comps && comps[name].Object?
             && Derives(comps[name], prefix, comps, seen + {ref}, depth, path)
  {
    ReferenceLeadsTo(node, comps, ref, p, name);
    DerivesExactlyByAStep(node, prefix, comps, seen, depth, path);
    forall step | DerivesBy(node, step, prefix, comps, seen, depth, path) ensures step == FollowRef {
      assert CanStep(node, step);
    }
    NothingBelowNoObject(Null, prefix, comps, seen + {ref}, depth, path);
    assert Derives(node, prefix, comps, seen, depth, path) <==> DerivesBy(node, FollowRef, prefix, comps, seen, depth, path);
  }

  /** So a schema that is only a reference documents what the component it names documents once the reference is seen. */
  lemma BareReferenceDocuments(comps: map<string, Json>, path: string, ref: string, p: string, name: string)
    requires '/' !in name && (ref == p + "/" + name || ref == name)
    ensures Documented(Object(map["$ref" := String(ref)]), comps, path)
        <==> name in comps && comps[name].Object? && Derives(comps[name], "", comps, {ref}, 0, path)
  {
    DerivesByReference(Object(map["$ref" := String(ref)]), "", comps, {}, 0, path, ref, p, name);
    assert {} + {ref} == {ref};
  }

  // A member of the composition keyword that derives the path.
  ghost predicate DerivesByComposition(keyword: string, fields: map<string, Json>, prefix: string, comps: map<string, Json>,
                                       seen: set<string>, depth: nat, path: string) {
    keyword in fields && fields[keyword].Array? &&
    exists i :: 0 <= i < |fields[keyword].items| && fields[keyword].items[i].Object? &&
      Derives(fields[keyword].items[i], prefix, comps, seen, depth, path)
  }

  // A property that is the path or leads on to it.
  ghost predicate DerivesByAProperty(props: map<string, Json>, prefix: string, comps: map<string, Json>, seen: set<string>,
                                     depth: nat, path: string) {
    exists name :: name in props &&
      var below := if prefix == "" then name else prefix + "." + name;
      path == below || Derives(props[name], below, comps, seen, depth + 1, path)
  }

  lemma CompositionIsAStep(keyword: string, node: Json, prefix: string, comps: map<string, Json>, seen: set<string>,
                           depth: nat, path: string)
    requires node.Object? && !("$ref" in node.fields && node.fields["$ref"].String?)
    requires keyword == "allOf" || keyword == "anyOf" || keyword == "oneOf"
    requires DerivesByComposition(keyword, node.fields, prefix, comps, seen, depth, path)
    ensures Derives(node, prefix, comps, seen, depth, path)
  {
    var i :| 0 <= i < |node.fields[keyword].items| && node.fields[keyword].items[i].Object? &&
      Derives(node.fields[keyword].items[i], prefix, comps, seen, depth, path);
    DerivesByImpliesDerives(node, IntoMember(keyword, i), prefix, comps, seen, depth, path);
  }

  lemma PropertyIsAStep(node: Json, prefix: string, comps: map<string, Json>, seen: set<string>, depth: nat, path: string)
    requires node.Object? && !("$ref" in node.fields && node.fields["$ref"].String?)
    requires depth <= 8 && "properties" in node.fields && node.fields["properties"].Object?
    requires DerivesByAProperty(node.fields["properties"].fields, prefix, comps, seen, depth, path)
    ensures Derives(node, prefix, comps, seen, depth, path)
  {
    var props := node.fields["properties"].fields;
    var name :| name in props &&
      var below := if prefix == "" then name else prefix + "." + name;
      path == below || Derives(props[name], below, comps, seen, depth + 1, path);
    DerivesByImpliesDerives(node, IntoProperty(name), prefix, comps, seen, depth, path);
  }

  /** Without a `$ref`, a path is derived through `items`, through a member of `allOf`, `anyOf` or `oneOf`, or, down to
  depth 8, through a property, whose name is appended with a dot unless it comes first. */
  lemma DerivesByKeywords(node: Json, prefix: string, comps: map<string, Json>, seen: set<string>, depth: nat, path: string)
    requires node.Object? && !("$ref" in node.fields && node.fields["$ref"].String?)
    ensures Derives(node, prefix, comps, seen, depth, path) <==>
            var fields := node.fields;
            || ("items" in fields && fields["items"].Object? && Derives(fields["items"], prefix, comps, seen, depth, path))
            || DerivesByComposition("allOf", fields, prefix, comps, seen, depth, path)
            || DerivesByComposition("anyOf", fields, prefix, comps, seen, depth, path)
            || DerivesByComposition("oneOf", fields, prefix, comps, seen, depth, path)
            || (depth <= 8 && "properties" in fields && fields["properties"].Object? &&
                DerivesByAProperty(fields["properties"].fields, prefix, comps, seen, depth, path))
  {
    var fields := node.fields;
    DerivesExactlyByAStep(node, prefix, comps, seen, depth, path);
    if step :| DerivesBy(node, step, prefix, comps, seen, depth, path) {
      assert CanStep(node, step);
      match step
      case FollowRef =>
      case IntoItems =>
      case IntoMember(keyword, i) => assert DerivesByComposition(keyword, fields, prefix, comps, seen, depth, path);
      case IntoProperty(name) => assert DerivesByAProperty(fields["properties"].fields, prefix, comps, seen, depth, path);
    }
    if "items" in fields && fields["items"].Object? && Derives(fields["items"], prefix, comps, seen, depth, path) {
      DerivesByImpliesDerives(node, IntoItems, prefix, comps, seen, depth, path);
    }
    forall keyword | (keyword == "allOf" || keyword == "anyOf" || keyword == "oneOf") &&
                     DerivesByComposition(keyword, fields, prefix, comps, seen, depth, path)
      ensures Derives(node, prefix, comps, seen, depth, path)
    {
      CompositionIsAStep(keyword, node, prefix, comps, seen, depth, path);
    }
    if depth <= 8 && "properties" in fields && fields["properties"].Object? &&
       DerivesByAProperty(fields["properties"].fields, prefix, comps, seen, depth, path) {
      PropertyIsAStep(node, prefix, comps, seen, depth, path);
    }
  }

  // ---------------------------------------------------------------- where schemas and components are found

  // The object under a key; what is missing or no object reads as empty.
  function Under(m: map<string, Json>, key: string): map<string, Json> {
    if key in m && m[key].Object? then m[key].fields else map[]
  }

  lemma DigUnder(m: map<string, Json>, key: string, keys: seq<string>)
    ensures var all := [key] + keys;
            Below(m, all) == if key in m && m[key].Object? then Below(Under(m, key), keys) else None
  {
    assert ([key] + keys)[1..] == keys;
  }

  // What `Below` finds, with nothing read as empty.
  function Found(r: Option<map<string, Json>>): map<string, Json> {
    if r.Some? then r.value else map[]
  }

  lemma DigEmpty(keys: seq<string>)
    ensures Found(Below(map[], keys)) == map[]
  {
  }

  lemma FoundUnder(m: map<string, Json>, key: string, keys: seq<string>)
    ensures Found(Below(m, [key] + keys)) == Found(Below(Under(m, key), keys))
  {
    DigUnder(m, key, keys);
    DigEmpty(keys);
  }

  /** Components are looked up under components, schemas. */
  lemma ComponentsAsWritten(doc: map<string, Json>)
    ensures Components(doc) == Under(Under(doc, "components"), "schemas")
  {
    FoundUnder(doc, "components", ["schemas"]);
    FoundUnder(Under(doc, "components"), "schemas", []);
    assert ["components"] + ["schemas"] == ["components", "schemas"] && ["schemas"] + [] == ["schemas"];
  }

  /** Response content is looked up under paths, the endpoint, get, responses, 200, content. */
  lemma ContentAsWritten(doc: map<string, Json>, path: string)
    ensures Content(doc, path)
         == Under(Under(Under(Under(Under(Under(doc, "paths"), path), "get"), "responses"), "200"), "content")
  {
    var k5 := ["content"];
    var k4 := ["200"] + k5;
    var k3 := ["responses"] + k4;
    var k2 := ["get"] + k3;
    var k1 := [path] + k2;
    assert ["paths"] + k1 == ["paths", path, "get", "responses", "200", "content"];
    var d1 := Under(doc, "paths");
    var d2 := Under(d1, path);
    var d3 := Under(d2, "get");
    var d4 := Under(d3, "responses");
    var d5 := Under(d4, "200");
    FoundUnder(doc, "paths", k1);
    FoundUnder(d1, path, k2);
    FoundUnder(d2, "get", k3);
    FoundUnder(d3, "responses", k4);
    FoundUnder(d4, "200", k5);
    FoundUnder(d5, "content", []);
    assert ["content"] + [] == k5;
  }

  /** The schema of an endpoint is the object `schema` of application/json where there is one, and else that of any other
  content type. */
  lemma ResponseSchemaAsWritten(doc: map<string, Json>, path: string, schema: Json)
    ensures IsResponseSchema(doc, path, schema) <==>
            var content := Under(Under(Under(Under(Under(Under(doc, "paths"), path), "get"), "responses"), "200"), "content");
            var preferred := Under(content, "application/json");
            && schema.Object?
            && if "schema" in preferred && preferred["schema"].Object? then schema == preferred["schema"]
               else exists mt :: mt in content && content[mt].Object? &&
                      "schema" in content[mt].fields && content[mt].fields["schema"] == schema
  {
    ContentAsWritten(doc, path);
    var content := Content(doc, path);
    if schema.Object? {
      forall mt | mt in content && content[mt].Object? && "schema" in content[mt].fields && content[mt].fields["schema"] == schema
        ensures HasSchema(content, mt)
      {
      }
    }
  }

  // ---------------------------------------------------------------- the order of a sorted list

  /** Field lists are sorted character by character, a shorter path before its continuations. */
  lemma {:induction false} BeforeAsWritten(a: string, b: string)
    ensures Before(a, b) <==> a < b || exists k :: 0 <= k < |a| && k < |b| && a[..k] == b[..k] && a[k] < b[k]
  {
    if a != "" && b != "" {
      BeforeAsWritten(a[1..], b[1..]);
      if k :| 0 <= k < |a| && k < |b| && a[..k] == b[..k] && a[k] < b[k] {
        if k > 0 {
          assert a[0] == a[..k][0] == b[..k][0] == b[0];
          assert a[1..][..k - 1] == a[..k][1..] == b[..k][1..] == b[1..][..k - 1];
          assert a[1..][k - 1] == a[k] && b[1..][k - 1] == b[k];
        }
      }
      if a[0] == b[0] {
        if k :| 0 <= k < |a[1..]| && k < |b[1..]| && a[1..][..k] == b[1..][..k] && a[1..][k] < b[1..][k] {
          assert a[..k + 1] == [a[0]] + a[1..][..k] == [b[0]] + b[1..][..k] == b[..k + 1];
        }
        assert a < b <==> a[1..] < b[1..] by {
          assert a == [a[0]] + a[1..] && b == [b[0]] + b[1..];
        }
      } else if a[0] < b[0] {
        assert a[..0] == b[..0];
      }
    }
  }
}
