/** The check of a fixture against the documented fields (internal/powerscale/schema_guard_test.go). */
module SchemaGuard {
  import opened Json
  import opened Paths
  import opened SchemaTrails

  // ---------------------------------------------------------------- key paths of a value

  datatype Move = IntoKey(key: string) | IntoElement(index: nat)

  predicate CanMove(v: Json, m: Move) {
    match m
    case IntoKey(k) => v.Object? && k in v.fields
    case IntoElement(i) => v.Array? && i < |v.items|
  }

  function At(v: Json, m: Move): Json
    requires CanMove(v, m)
  {
    match m
    case IntoKey(k) => v.fields[k]
    case IntoElement(i) => v.items[i]
  }

  predicate IsRoute(v: Json, route: seq<Move>)
    decreases |route|
  {
    route == [] || (CanMove(v, route[0]) && IsRoute(At(v, route[0]), route[1..]))
  }

  // The keys along a route; array elements leave no trace in a path.
  function Keys(route: seq<Move>): seq<string> {
    if route == [] then []
    else (if route[0].IntoKey? then [route[0].key] else []) + Keys(route[1..])
  }

  ghost predicate HasKeys(v: Json, keys: seq<string>) {
    keys != [] && exists route :: IsRoute(v, route) && Keys(route) == keys
  }

  /** `keys` is reported: its text is undocumented and that of every shorter start is documented. */
  ghost predicate Reported(v: Json, prefix: string, doc: set<string>, keys: seq<string>) {
    && HasKeys(v, keys)
    && PathText(prefix, keys) !in doc
    && forall n :: 0 < n < |keys| ==> PathText(prefix, keys[..n]) in doc
  }

  ghost predicate Flagged(v: Json, prefix: string, doc: set<string>, p: string) {
    exists keys :: Reported(v, prefix, doc, keys) && p == PathText(prefix, keys)
  }

  lemma {:induction false} KeysThroughElement(v: Json, i: nat, keys: seq<string>)
    requires v.Array? && i < |v.items| && HasKeys(v.items[i], keys)
    ensures HasKeys(v, keys)
  {
    var route: seq<Move> :| IsRoute(v.items[i], route) && Keys(route) == keys;
    var longer := [IntoElement(i)] + route;
    assert longer[1..] == route;
    assert IsRoute(v, longer) && Keys(longer) == keys;
  }

  lemma KeysThroughKey(v: Json, k: string, keys: seq<string>)
    requires v.Object? && k in v.fields && (keys == [] || HasKeys(v.fields[k], keys))
    ensures HasKeys(v, [k] + keys)
  {
    var route: seq<Move> :| IsRoute(v.fields[k], route) && Keys(route) == keys by {
      if keys == [] {
        assert IsRoute(v.fields[k], []) && Keys([]) == keys;
      }
    }
    var longer := [IntoKey(k)] + route;
    assert longer[1..] == route;
    assert IsRoute(v, longer) && Keys(longer) == [k] + keys;
  }

  lemma KeysOfArray(v: Json, keys: seq<string>) returns (i: nat)
    requires v.Array? && HasKeys(v, keys)
    ensures i < |v.items| && HasKeys(v.items[i], keys)
  {
    var route: seq<Move> :| IsRoute(v, route) && Keys(route) == keys;
    i := route[0].index;
    assert IsRoute(v.items[i], route[1..]) && Keys(route[1..]) == keys;
  }

  lemma KeysOfObject(v: Json, keys: seq<string>)
    requires v.Object? && HasKeys(v, keys)
    ensures keys[0] in v.fields
    ensures keys[1..] == [] || HasKeys(v.fields[keys[0]], keys[1..])
  {
    var route: seq<Move> :| IsRoute(v, route) && Keys(route) == keys;
    assert keys == [route[0].key] + Keys(route[1..]);
    assert keys[1..] == Keys(route[1..]);
    assert IsRoute(v.fields[keys[0]], route[1..]);
  }

  lemma FlaggedInArray(v: Json, prefix: string, doc: set<string>, p: string)
    requires v.Array?
    ensures Flagged(v, prefix, doc, p) <==> exists i :: 0 <= i < |v.items| && Flagged(v.items[i], prefix, doc, p)
  {
    if Flagged(v, prefix, doc, p) {
      var keys :| Reported(v, prefix, doc, keys) && p == PathText(prefix, keys);
      var i := KeysOfArray(v, keys);
      assert Reported(v.items[i], prefix, doc, keys);
    }
    if i :| 0 <= i < |v.items| && Flagged(v.items[i], prefix, doc, p) {
      var keys :| Reported(v.items[i], prefix, doc, keys) && p == PathText(prefix, keys);
      KeysThroughElement(v, i, keys);
      assert Reported(v, prefix, doc, keys);
    }
  }

  // What the guard finds below one key of an object.
  ghost predicate FlaggedBelow(v: Json, prefix: string, doc: set<string>, k: string, p: string)
    requires v.Object? && k in v.fields
  {
    var q := Extend(prefix, k);
    if q in doc then Flagged(v.fields[k], q, doc, p) else p == q
  }

  lemma FlaggedInObject(v: Json, prefix: string, doc: set<string>, p: string)
    requires v.Object?
    ensures Flagged(v, prefix, doc, p) <==> exists k :: k in v.fields && FlaggedBelow(v, prefix, doc, k, p)
  {
    if Flagged(v, prefix, doc, p) {
      var keys :| Reported(v, prefix, doc, keys) && p == PathText(prefix, keys);
      KeysOfObject(v, keys);
      var k, rest, q := keys[0], keys[1..], Extend(prefix, keys[0]);
      assert keys[..1] == [k] && PathText(prefix, [k]) == q;
      if rest == [] {
        assert keys == [k];
      } else {
        assert PathText(prefix, keys[..1]) in doc;
        assert PathText(q, rest) == p;
        forall n | 0 < n < |rest| ensures PathText(q, rest[..n]) in doc {
          assert keys[..n + 1][1..] == rest[..n];
          assert PathText(prefix, keys[..n + 1]) == PathText(q, rest[..n]);
        }
        assert Reported(v.fields[k], q, doc, rest);
      }
      assert FlaggedBelow(v, prefix, doc, k, p);
    }
    if k :| k in v.fields && FlaggedBelow(v, prefix, doc, k, p) {
      var q := Extend(prefix, k);
      var rest: seq<string> := [];
      if q in doc {
        rest :| Reported(v.fields[k], q, doc, rest) && p == PathText(q, rest);
      }
      KeysThroughKey(v, k, rest);
      var keys := [k] + rest;
      assert keys[1..] == rest;
      assert PathText(prefix, keys) == PathText(q, rest);
      forall n | 0 < n < |keys| ensures PathText(prefix, keys[..n]) in doc {
        assert keys[..n][1..] == rest[..n - 1];
        assert PathText(prefix, keys[..n]) == PathText(q, rest[..n - 1]);
      }
      assert Reported(v, prefix, doc, keys);
    }
  }

  // ---------------------------------------------------------------- where a report comes from

  // The way to one undocumented key: all keys before it are documented.
  predicate ReportedRoute(v: Json, prefix: string, doc: set<string>, route: seq<Move>) {
    && route != [] && route[|route| - 1].IntoKey? && IsRoute(v, route)
    && PathText(prefix, Keys(route)) !in doc
    && forall n :: 0 < n < |Keys(route)| ==> PathText(prefix, Keys(route)[..n]) in doc
  }

  lemma {:induction false} KeysOfRoute(route: seq<Move>)
    ensures route != [] && route[|route| - 1].IntoKey? ==> Keys(route) != []
  {
    if |route| > 1 {
      KeysOfRoute(route[1..]);
    }
  }

  lemma RouteThroughElement(v: Json, prefix: string, doc: set<string>, i: nat, rest: seq<Move>)
    requires v.Array?
    ensures ReportedRoute(v, prefix, doc, [IntoElement(i)] + rest)
       <==> i < |v.items| && ReportedRoute(v.items[i], prefix, doc, rest)
  {
    var route := [IntoElement(i)] + rest;
    assert route[1..] == rest;
    assert Keys(route) == Keys(rest);
    if rest != [] {
      assert route[|route| - 1] == rest[|rest| - 1];
    }
  }

  // What the rest of a route is after one key.
  predicate RouteBelow(v: Json, prefix: string, doc: set<string>, k: string, rest: seq<Move>)
    requires v.Object? && k in v.fields
  {
    if Extend(prefix, k) in doc then ReportedRoute(v.fields[k], Extend(prefix, k), doc, rest) else rest == []
  }

  lemma StartOfPath(prefix: string, k: string, below: seq<string>, n: nat)
    requires 0 < n <= 1 + |below|
    ensures PathText(prefix, ([k] + below)[..n]) == PathText(Extend(prefix, k), below[..n - 1])
  {
    assert ([k] + below)[..n][1..] == below[..n - 1];
  }

  // All starts of the longer path are documented exactly when the key is and all starts of the rest are.
  lemma StartsOfPath(prefix: string, k: string, below: seq<string>, doc: set<string>)
    requires below != []
    ensures (forall n :: 0 < n < 1 + |below| ==> PathText(prefix, ([k] + below)[..n]) in doc)
       <==> Extend(prefix, k) in doc && forall n :: 0 < n < |below| ==> PathText(Extend(prefix, k), below[..n]) in doc
  {
    forall n | 0 < n <= |below| ensures PathText(prefix, ([k] + below)[..n]) == PathText(Extend(prefix, k), below[..n - 1]) {
      StartOfPath(prefix, k, below, n);
    }
    assert PathText(Extend(prefix, k), below[..0]) == Extend(prefix, k);
    if forall n :: 0 < n < 1 + |below| ==> PathText(prefix, ([k] + below)[..n]) in doc {
      assert PathText(prefix, ([k] + below)[..1]) in doc;
      forall n | 0 < n < |below| ensures PathText(Extend(prefix, k), below[..n]) in doc {
        assert PathText(prefix, ([k] + below)[..n + 1]) in doc;
      }
    }
  }

  lemma RouteThroughKey(v: Json, prefix: string, doc: set<string>, k: string, rest: seq<Move>)
    requires v.Object?
    ensures ReportedRoute(v, prefix, doc, [IntoKey(k)] + rest) <==> k in v.fields && RouteBelow(v, prefix, doc, k, rest)
  {
    var route, q := [IntoKey(k)] + rest, Extend(prefix, k);
    assert route[1..] == rest;
    var keys, below := Keys(route), Keys(rest);
    assert keys == [k] + below && keys[1..] == below;
    assert PathText(prefix, keys) == PathText(q, below);
    KeysOfRoute(rest);
    if rest == [] {
      assert below == [] && PathText(q, below) == q;
      assert keys == [k] && route == [IntoKey(k)];
      assert k in v.fields ==> IsRoute(v, route);
    } else {
      assert route[|route| - 1] == rest[|rest| - 1];
      if below != [] {
        StartsOfPath(prefix, k, below, doc);
      }
    }
  }

  lemma {:induction false} FirstMoves(v: Json, prefix: string, doc: set<string>, route: seq<Move>)
    requires ReportedRoute(v, prefix, doc, route)
    ensures route == [route[0]] + route[1..] && (if v.Array? then route[0].IntoElement? else v.Object? && route[0].IntoKey?)
  {
  }

  // ---------------------------------------------------------------- the guard

  function Through(m: Move, routes: seq<seq<Move>>): seq<seq<Move>> {
    seq(|routes|, i requires 0 <= i < |routes| => [m] + routes[i])
  }

  // One text for each route, and no route twice.
  ghost predicate Lists(out: seq<string>, prefix: string, routes: seq<seq<Move>>) {
    && |out| == |routes| && NoDuplicates(routes)
    && forall i :: 0 <= i < |out| ==> out[i] == PathText(prefix, Keys(routes[i]))
  }

  // `routes` are the reported ones through the moves `done`.
  ghost predicate ReportedThrough(v: Json, prefix: string, doc: set<string>, done: set<Move>, routes: seq<seq<Move>>) {
    forall r :: r in routes <==> ReportedRoute(v, prefix, doc, r) && r[0] in done
  }

  // The routes below a move are added to those through other moves.
  lemma MoreRoutes(v: Json, prefix: string, doc: set<string>, done: set<Move>, routes: seq<seq<Move>>, out: seq<string>,
                   m: Move, q: string, below: seq<seq<Move>>, more: seq<string>)
    requires ReportedThrough(v, prefix, doc, done, routes) && Lists(out, prefix, routes) && m !in done
    requires Lists(more, q, below) && q == if m.IntoKey? then Extend(prefix, m.key) else prefix
    requires forall rest :: rest in below <==> ReportedRoute(v, prefix, doc, [m] + rest)
    ensures ReportedThrough(v, prefix, doc, done + {m}, routes + Through(m, below))
    ensures Lists(out + more, prefix, routes + Through(m, below))
  {
    var all := routes + Through(m, below);
    forall r ensures r in all <==> ReportedRoute(v, prefix, doc, r) && r[0] in done + {m} {
      if ReportedRoute(v, prefix, doc, r) && r[0] == m {
        assert r == [m] + r[1..];
        var i :| 0 <= i < |below| && below[i] == r[1..];
        assert Through(m, below)[i] == r;
      }
      if r in Through(m, below) {
        var i :| 0 <= i < |below| && Through(m, below)[i] == r;
        assert below[i] in below;
      }
    }
    ThroughDiffer(m, below);
    forall i, j | 0 <= i < |routes| && 0 <= j < |below| ensures routes[i] != Through(m, below)[j] {
      assert routes[i] in routes;
    }
    forall i | 0 <= i < |below| ensures PathText(prefix, Keys(Through(m, below)[i])) == more[i] {
      assert ([m] + below[i])[1..] == below[i];
      if m.IntoKey? {
        assert Keys([m] + below[i])[1..] == Keys(below[i]);
      } else {
        assert Keys([m] + below[i]) == Keys(below[i]);
      }
    }
  }

  lemma ThroughDiffer(m: Move, below: seq<seq<Move>>)
    requires NoDuplicates(below)
    ensures NoDuplicates(Through(m, below))
  {
    forall i, j | 0 <= i < j < |below| ensures [m] + below[i] != [m] + below[j] {
      assert ([m] + below[i])[1..] == below[i] && ([m] + below[j])[1..] == below[j];
    }
  }

  /** Reports exactly the topmost undocumented key paths, in any order of the keys, and one text for each way that
  leads to one. */
  method UndocumentedFields(v: Json, prefix: string, doc: set<string>) returns (out: seq<string>, ghost routes: seq<seq<Move>>)
    ensures Lists(out, prefix, routes)
    ensures forall r :: r in routes <==> ReportedRoute(v, prefix, doc, r)
    decreases v
  {
    out, routes := [], [];
    ghost var done: set<Move> := {};
    match v {
      case Object(fields) =>
        var todo := fields.Keys;
        while todo != {}
          invariant todo <= fields.Keys && Lists(out, prefix, routes) && ReportedThrough(v, prefix, doc, done, routes)
          invariant forall m :: m in done <==> m.IntoKey? && m.key in fields.Keys - todo
          decreases todo
        {
          var k :| k in todo;
          var p := Extend(prefix, k);
          var more: seq<string>;
          ghost var below: seq<seq<Move>>;
          if p !in doc {
            more, below := [p], [[]];
          } else {
            more, below := UndocumentedFields(fields[k], p, doc);
          }
          forall rest { RouteThroughKey(v, prefix, doc, k, rest); }
          MoreRoutes(v, prefix, doc, done, routes, out, IntoKey(k), p, below, more);
          out, routes, done, todo := out + more, routes + Through(IntoKey(k), below), done + {IntoKey(k)}, todo - {k};
        }
      case Array(items) =>
        for i := 0 to |items|
          invariant Lists(out, prefix, routes) && ReportedThrough(v, prefix, doc, done, routes)
          invariant forall m :: m in done <==> m.IntoElement? && m.index < i
        {
          var more: seq<string>;
          ghost var below: seq<seq<Move>>;
          more, below := UndocumentedFields(items[i], prefix, doc);
          forall rest { RouteThroughElement(v, prefix, doc, i, rest); }
          MoreRoutes(v, prefix, doc, done, routes, out, IntoElement(i), prefix, below, more);
          out, routes, done := out + more, routes + Through(IntoElement(i), below), done + {IntoElement(i)};
        }
      case _ =>
    }
  }

  // A path is flagged exactly when a route to it is reported, so the guard lists what is flagged and nothing else.
  lemma {:induction false} FlaggedExactlyByARoute(v: Json, prefix: string, doc: set<string>, p: string)
    ensures Flagged(v, prefix, doc, p) <==> exists r :: ReportedRoute(v, prefix, doc, r) && p == PathText(prefix, Keys(r))
    decreases v
  {
    if Flagged(v, prefix, doc, p) {
      var r := RouteOfFlagged(v, prefix, doc, p);
    }
    if r :| ReportedRoute(v, prefix, doc, r) && p == PathText(prefix, Keys(r)) {
      KeysOfRoute(r);
      assert Reported(v, prefix, doc, Keys(r));
    }
  }

  lemma NoKeys(v: Json)
    requires !v.Object? && !v.Array?
    ensures forall keys :: !HasKeys(v, keys)
  {
  }

  lemma {:induction false} RouteOfFlagged(v: Json, prefix: string, doc: set<string>, p: string) returns (r: seq<Move>)
    requires Flagged(v, prefix, doc, p)
    ensures ReportedRoute(v, prefix, doc, r) && p == PathText(prefix, Keys(r))
    decreases v
  {
    if v.Object? {
      FlaggedInObject(v, prefix, doc, p);
      var k :| k in v.fields && FlaggedBelow(v, prefix, doc, k, p);
      var rest: seq<Move> := [];
      if Extend(prefix, k) in doc {
        rest := RouteOfFlagged(v.fields[k], Extend(prefix, k), doc, p);
      }
      RouteThroughKey(v, prefix, doc, k, rest);
      r := [IntoKey(k)] + rest;
      assert r[1..] == rest && Keys(r)[1..] == Keys(rest);
    } else if v.Array? {
      FlaggedInArray(v, prefix, doc, p);
      var i :| 0 <= i < |v.items| && Flagged(v.items[i], prefix, doc, p);
      var rest := RouteOfFlagged(v.items[i], prefix, doc, p);
      RouteThroughElement(v, prefix, doc, i, rest);
      r := [IntoElement(i)] + rest;
      assert r[1..] == rest && Keys(r) == Keys(rest);
    } else {
      r := [];
      NoKeys(v);
      assert false;
    }
  }

  /** Nothing is reported exactly when every key path is documented, although the guard does not
  look below an undocumented parent. */
  lemma GuardPassesExactlyWhenAllDocumented(v: Json, prefix: string, doc: set<string>)
    ensures (forall p :: !Flagged(v, prefix, doc, p)) <==> (forall keys :: HasKeys(v, keys) ==> PathText(prefix, keys) in doc)
  {
    if keys :| HasKeys(v, keys) && PathText(prefix, keys) !in doc {
      var n := ShortestUndocumented(prefix, doc, keys);
      StartOfKeys(v, keys, n);
      forall m | 0 < m < n ensures PathText(prefix, keys[..n][..m]) in doc {
        assert keys[..n][..m] == keys[..m];
      }
      assert Reported(v, prefix, doc, keys[..n]);
      assert Flagged(v, prefix, doc, PathText(prefix, keys[..n]));
    }
  }

  lemma ShortestUndocumented(prefix: string, doc: set<string>, keys: seq<string>) returns (n: nat)
    requires keys != [] && PathText(prefix, keys) !in doc
    ensures 0 < n <= |keys| && PathText(prefix, keys[..n]) !in doc
    ensures forall m :: 0 < m < n ==> PathText(prefix, keys[..m]) in doc
  {
    n := 1;
    assert keys[..|keys|] == keys;
    while PathText(prefix, keys[..n]) in doc
      invariant 0 < n <= |keys|
      invariant forall m :: 0 < m < n ==> PathText(prefix, keys[..m]) in doc
      decreases |keys| - n
    {
      n := n + 1;
    }
  }

  // Every non-empty start of a key sequence is itself one.
  lemma {:induction false} StartOfKeys(v: Json, keys: seq<string>, n: nat)
    requires HasKeys(v, keys) && 0 < n <= |keys|
    ensures HasKeys(v, keys[..n])
    decreases v
  {
    if v.Object? {
      KeysOfObject(v, keys);
      assert keys[..n] == [keys[0]] + keys[1..][..n - 1];
      if n > 1 {
        StartOfKeys(v.fields[keys[0]], keys[1..], n - 1);
      }
      KeysThroughKey(v, keys[0], keys[1..][..n - 1]);
    } else if v.Array? {
      var i := KeysOfArray(v, keys);
      StartOfKeys(v.items[i], keys, n);
      KeysThroughElement(v, i, keys[..n]);
    }
  }

  // ---------------------------------------------------------------- guard and flattener together

  // The name sequence is documented, not merely its dotted text.
  ghost predicate DocumentedNames(schema: Json, comps: map<string, Json>, names: seq<string>) {
    exists trail :: Derivation(schema, comps, {}, 0, trail) && Names(trail) == names
  }

  /** A value whose key sequences all have a derivation is never flagged, whatever its names look like. */
  lemma DocumentedValueIsNeverFlagged(v: Json, schema: Json, comps: map<string, Json>, doc: set<string>)
    requires forall p :: p in doc <==> Documented(schema, comps, p)
    requires forall keys :: HasKeys(v, keys) ==> DocumentedNames(schema, comps, keys)
    ensures forall p :: !Flagged(v, "", doc, p)
  {
    forall keys | HasKeys(v, keys) ensures PathText("", keys) in doc {
      var trail :| Derivation(schema, comps, {}, 0, trail) && Names(trail) == keys;
      assert Documented(schema, comps, PathText("", keys));
    }
    GuardPassesExactlyWhenAllDocumented(v, "", doc);
  }

  /** With the field set the flattener computes from a schema of plain names, a value's key sequences are all
  name sequences of bounded, reference-non-repeating derivations exactly when the guard passes the value and
  no key of it is empty or holds a dot. So the guard is right about every value with plain keys. */
  lemma GuardAgreesWithSchema(v: Json, schema: Json, comps: map<string, Json>, doc: set<string>)
    requires forall p :: p in doc <==> Documented(schema, comps, p)
    requires forall names :: DocumentedNames(schema, comps, names) ==> AllPlain(names)
    ensures (forall keys :: HasKeys(v, keys) ==> DocumentedNames(schema, comps, keys))
       <==> (forall p :: !Flagged(v, "", doc, p)) && (forall keys :: HasKeys(v, keys) ==> AllPlain(keys))
  {
    GuardPassesExactlyWhenAllDocumented(v, "", doc);
    forall keys | HasKeys(v, keys)
      ensures DocumentedNames(schema, comps, keys) <==> PathText("", keys) in doc && AllPlain(keys)
    {
      if PathText("", keys) in doc && AllPlain(keys) {
        var trail :| Derivation(schema, comps, {}, 0, trail) && PathText("", keys) == PathText("", Names(trail));
        assert DocumentedNames(schema, comps, Names(trail));
        PathTextIsInjective(keys, Names(trail));
      }
      if DocumentedNames(schema, comps, keys) {
        var trail :| Derivation(schema, comps, {}, 0, trail) && Names(trail) == keys;
        assert Documented(schema, comps, PathText("", keys));
      }
    }
  }

  /** A dotted key slips through: the guard compares texts, so the single key "a.b" passes where
  the schema documents "b" below "a" and no field of that name. */
  lemma DottedKeyIsNotCaught(schema: Json, v: Json, doc: set<string>)
    requires schema == Object(map["properties" := Object(map["a" := Object(map["properties" := Object(map["b" := Null])])])])
    requires v == Object(map["a.b" := Null])
    requires forall p :: p in doc <==> Documented(schema, map[], p)
    ensures forall p :: !Flagged(v, "", doc, p)
    ensures HasKeys(v, ["a.b"]) && !DocumentedNames(schema, map[], ["a.b"])
  {
    var inner := Target(schema, IntoProperty("a"), map[]);
    PropertyAlone(inner, "b", map[], {}, 1);
    PrependStep(schema, IntoProperty("a"), map[], {}, 0, [IntoProperty("b")]);
    var trail := [IntoProperty("a")] + [IntoProperty("b")];
    PathTextAfter(IntoProperty("a"), [IntoProperty("b")], "");
    assert PathText("", Names(trail)) == Extend("a", "b") == "a.b";
    assert Documented(schema, map[], "a.b");

    KeysThroughKey(v, "a.b", []);
    assert ["a.b"] + [] == ["a.b"];
    forall keys | HasKeys(v, keys) ensures PathText("", keys) in doc {
      KeysOfObject(v, keys);
      assert forall more :: !HasKeys(Null, more);
      assert keys == [keys[0]] + keys[1..] == ["a.b"];
    }
    GuardPassesExactlyWhenAllDocumented(v, "", doc);

    forall t: seq<Step> | Derivation(schema, map[], {}, 0, t) ensures Names(t) != ["a.b"] {
      assert CanStep(schema, t[0]) && t[0].IntoProperty? && t[0].name == "a";
      assert Names(t)[0] == "a";
    }
  }
}
