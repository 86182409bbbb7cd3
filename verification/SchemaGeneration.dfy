/** The generated schema list: one sorted field list per fixture (tools/extract-schemas, function main). */
module SchemaGeneration {
  import opened Wrappers
  import opened Json
  import opened Paths
  import opened SchemaTrails
  import opened SchemaFlattener

  ghost function Below(m: map<string, Json>, keys: seq<string>): Option<map<string, Json>>
    decreases |keys|
  {
    if keys == [] then Some(m)
    else if keys[0] in m && m[keys[0]].Object? then Below(m[keys[0]].fields, keys[1..])
    else None
  }

  /** The object found by following `keys`, if every one of them leads to an object. */
  method Dig(m: map<string, Json>, keys: seq<string>) returns (r: Option<map<string, Json>>)
    ensures r == Below(m, keys)
  {
    var cur := m;
    for i := 0 to |keys|
      invariant Below(m, keys) == Below(cur, keys[i..])
    {
      if keys[i] in cur && cur[keys[i]].Object? {
        cur := cur[keys[i]].fields;
      } else {
        return None;
      }
    }
    return Some(cur);
  }

  predicate HasSchema(content: map<string, Json>, mediaType: string) {
    && mediaType in content && content[mediaType].Object?
    && "schema" in content[mediaType].fields && content[mediaType].fields["schema"].Object?
  }

  ghost function Content(doc: map<string, Json>, path: string): map<string, Json> {
    match Below(doc, ["paths", path, "get", "responses", "200", "content"])
    case Some(content) => content
    case None => map[]
  }

  // `schema` can be taken for the endpoint: that of application/json if it has one, else any media type's.
  ghost predicate IsResponseSchema(doc: map<string, Json>, path: string, schema: Json) {
    var content := Content(doc, path);
    exists mediaType ::
      && HasSchema(content, mediaType) && schema == content[mediaType].fields["schema"]
      && (HasSchema(content, "application/json") ==> mediaType == "application/json")
  }

  method ResponseSchema(doc: map<string, Json>, path: string) returns (r: Option<Json>)
    ensures r.Some? ==> r.value.Object? && IsResponseSchema(doc, path, r.value)
    ensures r.None? ==> forall schema :: !IsResponseSchema(doc, path, schema)
  {
    var dug := Dig(doc, ["paths", path, "get", "responses", "200", "content"]);
    var content := if dug.Some? then dug.value else map[];
    assert content == Content(doc, path);
    var preferred := "application/json";
    if HasSchema(content, preferred) {
      return Some(content[preferred].fields["schema"]);
    }
    var todo := content.Keys;
    while todo != {}
      invariant todo <= content.Keys
      invariant forall mt :: mt in content.Keys - todo ==> !HasSchema(content, mt)
      decreases todo
    {
      var mediaType :| mediaType in todo;
      if HasSchema(content, mediaType) {
        return Some(content[mediaType].fields["schema"]);
      }
      todo := todo - {mediaType};
    }
    return None;
  }

  ghost function Components(doc: map<string, Json>): map<string, Json> {
    match Below(doc, ["components", "schemas"])
    case Some(comps) => comps
    case None => map[]
  }

  // `fields` is the sorted list of everything the endpoint's schema documents.
  ghost predicate IsFieldList(doc: map<string, Json>, path: string, fields: seq<string>) {
    exists schema ::
      && IsResponseSchema(doc, path, schema)
      && StrictlyIncreasing(fields)
      && forall p :: p in fields <==> Documented(schema, Components(doc), p)
  }

  ghost predicate IsGenerated(doc: map<string, Json>, targets: map<string, string>, out: map<string, seq<string>>) {
    && out.Keys == targets.Values
    && forall fx :: fx in out ==> exists path :: path in targets && targets[path] == fx && IsFieldList(doc, path, out[fx])
  }

  /** Field lists for all endpoints, visited in any order; an endpoint without a schema stops the program. */
  method Generate(doc: map<string, Json>, targets: map<string, string>) returns (r: Result<map<string, seq<string>>, string>)
    ensures r.Ok? ==> IsGenerated(doc, targets, r.value)
    ensures r.Err? ==> r.error in targets && forall schema :: !IsResponseSchema(doc, r.error, schema)
  {
    var dug := Dig(doc, ["components", "schemas"]);
    var comps := if dug.Some? then dug.value else map[];
    var out: map<string, seq<string>> := map[];
    var todo := targets.Keys;
    while todo != {}
      invariant todo <= targets.Keys
      invariant forall fx :: fx in out <==> exists path :: path in targets.Keys - todo && targets[path] == fx
      invariant forall fx :: fx in out ==> exists path :: path in targets && targets[path] == fx && IsFieldList(doc, path, out[fx])
      decreases todo
    {
      var path :| path in todo;
      var schema := ResponseSchema(doc, path);
      if schema.None? {
        return Err(path);
      }
      var fields := SchemaFields(schema.value, comps);
      var sorted := Sorted(fields);
      assert IsFieldList(doc, path, sorted);
      ghost var before := out;
      out := out[targets[path] := sorted];
      todo := todo - {path};
      forall fx ensures fx in out <==> exists q :: q in targets.Keys - todo && targets[q] == fx {
        if fx == targets[path] { assert path in targets.Keys - todo; }
      }
    }
    return Ok(out);
  }

  /** The generated list is reproducible: when no two endpoints share a fixture and no endpoint
  leaves a choice of schema, every run writes the same file, whatever orders the maps are visited in. */
  lemma GenerationIsReproducible(doc: map<string, Json>, targets: map<string, string>,
                                 out: map<string, seq<string>>, out': map<string, seq<string>>)
    requires IsGenerated(doc, targets, out) && IsGenerated(doc, targets, out')
    requires forall p, q :: p in targets && q in targets && targets[p] == targets[q] ==> p == q
    requires forall path, s, s' :: path in targets && IsResponseSchema(doc, path, s) && IsResponseSchema(doc, path, s') ==> s == s'
    ensures out == out'
  {
    forall fx | fx in out ensures out[fx] == out'[fx] {
      var path :| path in targets && targets[path] == fx && IsFieldList(doc, path, out[fx]);
      var path' :| path' in targets && targets[path'] == fx && IsFieldList(doc, path', out'[fx]);
      IncreasingListIsUnique(out[fx], out'[fx]);
    }
  }

  /** An application/json schema leaves no choice. */
  lemma JsonSchemaIsUnambiguous(doc: map<string, Json>, path: string, s: Json, s': Json)
    requires HasSchema(Content(doc, path), "application/json")
    requires IsResponseSchema(doc, path, s) && IsResponseSchema(doc, path, s')
    ensures s == s'
  {
  }
}
