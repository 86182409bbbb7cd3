/** Collection of the field paths a schema documents (tools/extract-schemas). */
module SchemaFlattener {
  import opened Json
  import opened Paths
  import opened SchemaTrails

  const KEYWORDS: seq<string> := ["allOf", "anyOf", "oneOf"]

  /** Unique field paths: an append-only list, with the paths already in it. */
  class FieldSet {
    var list: seq<string>
    var visited: map<string, bool>

    ghost predicate Valid()
      reads this
    {
      && NoDuplicates(list)
      && forall p :: p in list <==> p in visited && visited[p]
    }

    constructor ()
      ensures Valid() && list == []
    {
      list, visited := [], map[];
    }

    method Add(path: string)
      requires Valid()
      modifies this
      ensures Valid()
      ensures list == if path in old(list) then old(list) else old(list) + [path]
    {
      if !(path in visited && visited[path]) {
        visited := visited[path := true];
        list := list + [path];
      }
    }
  }

  /** The references followed so far along one path. */
  class RefSet {
    var refs: map<string, bool>

    // A reference is only ever set to true.
    ghost predicate Valid()
      reads this
    {
      forall r :: r in refs ==> refs[r]
    }

    ghost function Elements(): set<string>
      reads this
    {
      refs.Keys
    }

    constructor ()
      ensures Valid() && Elements() == {}
    {
      refs := map[];
    }

    method Contains(ref: string) returns (b: bool)
      requires Valid()
      ensures b <==> ref in Elements()
    {
      b := ref in refs && refs[ref];
    }

    method Add(ref: string)
      requires Valid()
      modifies this
      ensures Valid() && Elements() == old(Elements()) + {ref}
    {
      refs := refs[ref := true];
    }

    method Copy() returns (c: RefSet)
      requires Valid()
      ensures fresh(c) && c.Valid() && c.Elements() == Elements()
    {
      c := new RefSet();
      var todo := refs.Keys;
      while todo != {}
        invariant todo <= refs.Keys
        invariant fresh(c) && c.Valid() && c.Elements() == refs.Keys - todo
        decreases todo
      {
        var r :| r in todo;
        c.Add(r);
        todo := todo - {r};
      }
    }
  }

  // ---------------------------------------------------------------- what a partial walk has gathered

  // `list` holds `before` and what the steps already taken derive.
  ghost predicate Gathered(list: seq<string>, before: seq<string>, taken: set<Step>,
                           node: Json, prefix: string, comps: map<string, Json>, seen: set<string>, depth: nat) {
    && before <= list
    && forall p :: p in list <==> p in before || exists step :: step in taken && DerivesBy(node, step, prefix, comps, seen, depth, p)
  }

  lemma GatherStep(list': seq<string>, list: seq<string>, before: seq<string>, taken: set<Step>, step: Step,
                   node: Json, prefix: string, comps: map<string, Json>, seen: set<string>, depth: nat)
    requires Gathered(list, before, taken, node, prefix, comps, seen, depth)
    requires list <= list'
    requires forall p :: p in list' <==> p in list || DerivesBy(node, step, prefix, comps, seen, depth, p)
    ensures Gathered(list', before, taken + {step}, node, prefix, comps, seen, depth)
  {
    forall p ensures p in list' <==> p in before || exists s :: s in taken + {step} && DerivesBy(node, s, prefix, comps, seen, depth, p) {
      if p in list' && p !in before {
        if DerivesBy(node, step, prefix, comps, seen, depth, p) {
          assert step in taken + {step};
        } else {
          var s :| s in taken && DerivesBy(node, s, prefix, comps, seen, depth, p);
          assert s in taken + {step};
        }
      }
    }
  }

  // What the steps of one kind derive together.
  ghost predicate DerivesByMember(node: Json, prefix: string, comps: map<string, Json>, seen: set<string>, depth: nat, p: string) {
    exists step: Step :: step.IntoMember? && DerivesBy(node, step, prefix, comps, seen, depth, p)
  }

  ghost predicate DerivesByProperty(node: Json, prefix: string, comps: map<string, Json>, seen: set<string>, depth: nat, p: string) {
    exists step: Step :: step.IntoProperty? && DerivesBy(node, step, prefix, comps, seen, depth, p)
  }

  lemma DerivesByKind(node: Json, prefix: string, comps: map<string, Json>, seen: set<string>, depth: nat, p: string)
    ensures Derives(node, prefix, comps, seen, depth, p)
        <==> || DerivesBy(node, FollowRef, prefix, comps, seen, depth, p)
             || DerivesBy(node, IntoItems, prefix, comps, seen, depth, p)
             || DerivesByMember(node, prefix, comps, seen, depth, p)
             || DerivesByProperty(node, prefix, comps, seen, depth, p)
  {
    DerivesExactlyByAStep(node, prefix, comps, seen, depth, p);
    if step :| DerivesBy(node, step, prefix, comps, seen, depth, p) {
      assert step == FollowRef || step == IntoItems || step.IntoMember? || step.IntoProperty?;
    }
  }

  // Nothing is derived from a node that allows no step, or below the depth bound.
  lemma NothingDerived(node: Json, prefix: string, comps: map<string, Json>, seen: set<string>, depth: nat)
    requires !node.Object? || depth > MAX_DEPTH || (IsRef(node) && RefText(node) in seen)
    ensures forall p :: !Derives(node, prefix, comps, seen, depth, p)
  {
    forall p ensures !Derives(node, prefix, comps, seen, depth, p) {
      DerivesExactlyByAStep(node, prefix, comps, seen, depth, p);
      if depth > MAX_DEPTH && Derives(node, prefix, comps, seen, depth, p) {
        var trail :| Derivation(node, comps, seen, depth, trail) && p == PathText(prefix, Names(trail));
        NamesOfPropertyTrail(trail);
        assert false;
      }
    }
  }

  lemma {:induction false} NamesOfPropertyTrail(trail: seq<Step>)
    requires trail != [] && trail[|trail| - 1].IntoProperty?
    ensures Names(trail) != []
  {
    if |trail| > 1 {
      assert trail[1..][|trail| - 2] == trail[|trail| - 1];
      NamesOfPropertyTrail(trail[1..]);
    }
  }

  // ---------------------------------------------------------------- the walk

  /** Adds to `fs` exactly the paths derived from `schema`, in any order of the properties.

  It ends on cyclic documents whatever the depth bound: each reference followed is one of the
  document's finitely many (`u`) not yet in `seen`, and any other call is on a smaller node. */
  method Walk(schema: Json, prefix: string, fs: FieldSet, comps: map<string, Json>, seen: RefSet, depth: nat, ghost u: set<string>)
    requires schema.Object? || schema.Null?
    requires fs.Valid() && seen.Valid()
    requires RefTexts(schema) <= u && RefTexts(Object(comps)) <= u
    modifies fs
    ensures fs.Valid() && old(fs.list) <= fs.list
    ensures forall p :: p in fs.list <==> p in old(fs.list) || Derives(schema, prefix, comps, seen.Elements(), depth, p)
    decreases u - seen.Elements(), schema, 1
  {
    ghost var s := seen.Elements();
    if schema.Null? || depth > MAX_DEPTH {
      NothingDerived(schema, prefix, comps, s, depth);
      return;
    }
    forall p { DerivesByKind(schema, prefix, comps, s, depth, p); }
    if IsRef(schema) {
      var known := seen.Contains(RefText(schema));
      if !known {
        var next := seen.Copy();
        next.Add(RefText(schema));
        RefTextsOfComponent(RefText(schema), comps);
        Walk(ResolveRef(RefText(schema), comps), prefix, fs, comps, next, depth, u);
      }
      return;
    }
    if HasItems(schema) {
      RefTextsBelow(schema, IntoItems, comps);
      Walk(schema.fields["items"], prefix, fs, comps, seen, depth, u);
    }
    WalkMembers(schema, prefix, fs, comps, seen, depth, u);
    WalkProperties(schema, prefix, fs, comps, seen, depth, u);
  }

  // The composition keywords, in a fixed order.
  method WalkMembers(schema: Json, prefix: string, fs: FieldSet, comps: map<string, Json>, seen: RefSet, depth: nat, ghost u: set<string>)
    requires schema.Object? && !IsRef(schema)
    requires fs.Valid() && seen.Valid()
    requires RefTexts(schema) <= u && RefTexts(Object(comps)) <= u
    modifies fs
    ensures fs.Valid() && old(fs.list) <= fs.list
    ensures forall p :: p in fs.list <==> p in old(fs.list) || DerivesByMember(schema, prefix, comps, seen.Elements(), depth, p)
    decreases u - seen.Elements(), schema, 0
  {
    ghost var s, before, taken: set<Step> := seen.Elements(), fs.list, {};
    for k := 0 to |KEYWORDS|
      invariant fs.Valid()
      invariant Gathered(fs.list, before, taken, schema, prefix, comps, s, depth)
      invariant MembersTaken(schema, taken, k, 0)
    {
      var kw := KEYWORDS[k];
      if kw in schema.fields && schema.fields[kw].Array? {
        var arr := schema.fields[kw].items;
        for j := 0 to |arr|
          invariant fs.Valid()
          invariant Gathered(fs.list, before, taken, schema, prefix, comps, s, depth)
          invariant MembersTaken(schema, taken, k, j)
        {
          if arr[j].Object? {
            ghost var list := fs.list;
            RefTextsBelow(schema, IntoMember(kw, j), comps);
            Walk(arr[j], prefix, fs, comps, seen, depth, u);
            GatherStep(fs.list, list, before, taken, IntoMember(kw, j), schema, prefix, comps, s, depth);
            taken := taken + {IntoMember(kw, j)};
          }
        }
      }
    }
    AllMembersTaken(fs.list, before, taken, schema, prefix, comps, s, depth);
  }

  // All members of the first `k` keywords, and the first `j` members of the next, are taken; nothing else is.
  ghost predicate MembersTaken(node: Json, taken: set<Step>, k: nat, j: nat)
    requires k <= |KEYWORDS|
  {
    && (forall step :: step in taken ==> step.IntoMember?)
    && (forall a, i: nat :: 0 <= a < k && CanStep(node, IntoMember(KEYWORDS[a], i)) ==> IntoMember(KEYWORDS[a], i) in taken)
    && (k < |KEYWORDS| ==> forall i: nat :: i < j && CanStep(node, IntoMember(KEYWORDS[k], i)) ==> IntoMember(KEYWORDS[k], i) in taken)
  }

  lemma AllMembersTaken(list: seq<string>, before: seq<string>, taken: set<Step>,
                        node: Json, prefix: string, comps: map<string, Json>, seen: set<string>, depth: nat)
    requires Gathered(list, before, taken, node, prefix, comps, seen, depth)
    requires MembersTaken(node, taken, |KEYWORDS|, 0)
    ensures forall p :: p in list <==> p in before || DerivesByMember(node, prefix, comps, seen, depth, p)
  {
    assert KEYWORDS[0] == "allOf" && KEYWORDS[1] == "anyOf" && KEYWORDS[2] == "oneOf";
    forall step: Step | step.IntoMember? && CanStep(node, step) ensures step in taken {
      assert exists a :: 0 <= a < |KEYWORDS| && KEYWORDS[a] == step.keyword;
    }
  }

  // The properties, in any order.
  method WalkProperties(schema: Json, prefix: string, fs: FieldSet, comps: map<string, Json>, seen: RefSet, depth: nat, ghost u: set<string>)
    requires schema.Object? && !IsRef(schema) && depth <= MAX_DEPTH
    requires fs.Valid() && seen.Valid()
    requires RefTexts(schema) <= u && RefTexts(Object(comps)) <= u
    modifies fs
    ensures fs.Valid() && old(fs.list) <= fs.list
    ensures forall p :: p in fs.list <==> p in old(fs.list) || DerivesByProperty(schema, prefix, comps, seen.Elements(), depth, p)
    decreases u - seen.Elements(), schema, 0
  {
    if !HasProperties(schema) {
      return;
    }
    ghost var s, before, taken: set<Step> := seen.Elements(), fs.list, {};
    var props := schema.fields["properties"].fields;
    var todo := props.Keys;
    while todo != {}
      invariant todo <= props.Keys && fs.Valid()
      invariant Gathered(fs.list, before, taken, schema, prefix, comps, s, depth)
      invariant forall step :: step in taken <==> step.IntoProperty? && step.name in props.Keys - todo
      decreases todo
    {
      var name :| name in todo;
      ghost var list := fs.list;
      var p := Extend(prefix, name);
      fs.Add(p);
      if props[name].Object? {
        var below := seen.Copy();
        RefTextsBelow(schema, IntoProperty(name), comps);
        Walk(props[name], p, fs, comps, below, depth + 1, u);
      } else {
        NothingDerived(props[name], p, comps, s, depth + 1);
      }
      GatherStep(fs.list, list, before, taken, IntoProperty(name), schema, prefix, comps, s, depth);
      taken := taken + {IntoProperty(name)};
      todo := todo - {name};
    }
  }

  /** The fields `schema` documents, each once. */
  method SchemaFields(schema: Json, comps: map<string, Json>) returns (fields: seq<string>)
    requires schema.Object?
    ensures NoDuplicates(fields)
    ensures forall p :: p in fields <==> Documented(schema, comps, p)
  {
    var fs := new FieldSet();
    var seen := new RefSet();
    Walk(schema, "", fs, comps, seen, 0, RefTexts(schema) + RefTexts(Object(comps)));
    fields := fs.list;
  }
}
