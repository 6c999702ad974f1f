/**
 * Worked cases of the generator: how add lays out a few paths, and what
 * loadRoutes and main make of small route files.
 */
module RoutifyFixtures {
  import opened Optional
  import opened Errors
  import opened Entries
  import opened GoStrings
  import Router
  import RouterFacts
  import opened Routify

  /**
   * A path with a leading '/' (other than "/" itself) fails with
   * errInvalidPath, and the method's root, made before the walk, stays
   * behind.
   */
  lemma AddLeadingSlash(routes: seq<(string, Node)>, params: map<string, string>, verb: string, w: string, handle: string)
    requires w != ""
    ensures AddSpec(routes, params, verb, "/" + w, handle) ==
      (Put(routes, verb, Find(routes, verb).GetOr(Fresh)), Some(ErrInvalidPath))
  {
    RouterFacts.LeadingSlashSegments(w);
  }

  /** A walk of one non-empty segment from an empty root: one child, in the map and under the key Turn picks. */
  lemma InsertOne(seg: string, params: map<string, string>, handle: string)
    requires seg != ""
    ensures var f := Turn(Fresh, seg, params);
      var kid := if seg[0] == '$' then Fresh.(check := Lookup(params, f.key)) else Fresh;
      Insert(Fresh, [seg], 0, params, handle) == (Attach(f, kid.(handle := handle)), None)
  {
    var f := Turn(Fresh, seg, params);
    assert Enter(f, seg[0] == '$', params) == if seg[0] == '$' then Fresh.(check := Lookup(params, f.key)) else Fresh;
  }

  /** "/" is one literal key under the method's root. */
  lemma AddRootPath(handle: string)
    ensures AddSpec([], map[], "GET", "/", handle) ==
      ([("GET", Fresh.(table := [("/", Fresh.(handle := handle))]))], None)
  {
    InsertOne("/", map[], handle);
  }

  /** Without a PARAMS binding, "$x" is an ordinary key of table whose check is "". */
  lemma AddUnboundParam(handle: string)
    ensures AddSpec([], map[], "GET", "$x", handle) ==
      ([("GET", Fresh.(table := [("$x", Fresh.(handle := handle))]))], None)
  {
    assert Router.Segments("$x") == ["$x"] by {
      IndexByteAbsent("$x", '/');
    }
    InsertOne("$x", map[], handle);
  }

  /** With id bound, "$id" goes into funcs under "id", with the bound check. */
  lemma AddBoundParam(handle: string)
    ensures AddSpec([], map["id" := "isID"], "GET", "$id", handle) ==
      ([("GET", Fresh.(funcs := [("id", Fresh.(check := "isID", handle := handle))]))], None)
  {
    assert Router.Segments("$id") == ["$id"] by {
      IndexByteAbsent("$id", '/');
    }
    assert "$id"[1..] == "id";
    InsertOne("$id", map["id" := "isID"], handle);
  }

  /**
   * A route file whose PARAMS entry comes after the path that uses it: the
   * binding is gathered before any add runs, whatever the entry order.
   */
  lemma LateParams(path: string, verb: string, h: string, pk: string, name: string, check: string)
    requires verb in Methods && ToUpper(pk) == "PARAMS"
    requires ToUpper(path) != "PARAMS" && ToUpper(path) !in Methods
    ensures Classify([(path, Mapping([(Str(verb), Str(h))])), (pk, Mapping([(Str(name), Str(check))]))]) ==
      Gathered(map[name := check], [Line(verb, path, h)])
  {
    var doc := [(path, Mapping([(Str(verb), Str(h))])), (pk, Mapping([(Str(name), Str(check))]))];
    var g1 := Gathered(map[], [Line(verb, path, h)]);
    var g2 := Gathered(map[name := check], [Line(verb, path, h)]);
    assert Entry(path, doc[0].1, Gathered(map[], [])) == g1 by {
      var pairs := doc[0].1.pairs;
      assert [] + [Line(verb, path, h)] == [Line(verb, path, h)];
      assert PathFrom(path, pairs, 1, g1.lines) == g1.lines;
      assert PathFrom(path, pairs, 0, []) == PathFrom(path, pairs, 1, g1.lines);
    }
    assert Entry(pk, doc[1].1, g1) == g2 by {
      var pairs := doc[1].1.pairs;
      assert KeyedFrom("PARAMS", pairs, 1, g2) == g2;
      assert KeyedFrom("PARAMS", pairs, 0, g1) == KeyedFrom("PARAMS", pairs, 1, g2);
    }
    assert ClassifyFrom(doc, 2, g2) == g2;
    assert ClassifyFrom(doc, 1, g1) == ClassifyFrom(doc, 2, g2);
  }

  /** The route "$id" of GET, with id bound by a later `params` entry, ends up in funcs under "id" with the check isID. */
  lemma ParamsAfterRoute()
    ensures Load([("$id", Mapping([(Str("GET"), Str("user"))])), ("params", Mapping([(Str("id"), Str("isID"))]))]) ==
      ([("GET", Fresh.(funcs := [("id", Fresh.(check := "isID", handle := "user"))]))], None)
  {
    assert ToUpper("params") == "PARAMS";
    assert ToUpper("$id") == "$ID";
    LateParams("$id", "GET", "user", "params", "id", "isID");
    AddBoundParam("user");
  }

  /** A route file whose only path starts with '/' makes main end in log.Fatal with errInvalidPath. */
  lemma LeadingSlashFatal()
    ensures GenerateSpec("routes.yaml", "website", "Routes", [("GET", Mapping([(Str("/users"), Str("list"))]))]) ==
      Fatal(ErrInvalidPath)
  {
    var doc := [("GET", Mapping([(Str("/users"), Str("list"))]))];
    assert ToUpper("GET") == "GET" by { ToUpperNoLower("GET"); }
    assert Classify(doc).lines == [Line("GET", "/users", "list")] by {
      assert [] + [Line("GET", "/users", "list")] == [Line("GET", "/users", "list")];
    }
    assert "/" + "users" == "/users";
    AddLeadingSlash([], map[], "GET", "users", "list");
  }
}
