/**
 * The route tables written out in the repository (the router package's own
 * test table and the example website's table) and what Get, Add, GetInt and
 * Scan do on the requests its tests make.
 */
module Fixtures {
  import opened Optional
  import opened Entries
  import opened GoStrings
  import opened Errors
  import opened Strconv
  import opened Params
  import Util
  import Website
  import opened Router
  import opened RouterFacts

  // ----- Chains of nodes -----

  /** A node whose literal keys spell keys one per level, ending at handler h. */
  function LiteralChain(keys: seq<string>, h: Handler): Route
    decreases |keys|
  {
    if keys == [] then Route("", Unchecked, Some(h), None, [])
    else Route("", Unchecked, None, None, [(keys[0], LiteralChain(keys[1..], h))])
  }

  /** Unchecked parameter nodes named by names, one per level, the last carrying handler h. */
  function ParamChain(names: seq<string>, h: Handler): Route
    requires names != []
    decreases |names|
  {
    if |names| == 1 then Route(names[0], Unchecked, Some(h), None, [])
    else Route(names[0], Unchecked, None, Some(ParamChain(names[1..], h)), [])
  }

  /** The parameters a chain of names captures from a chain of segments. */
  function Zip(names: seq<string>, vals: seq<string>): Params
    requires |names| == |vals|
    decreases |names|
  {
    if names == [] then [] else [Param(names[0], vals[0])] + Zip(names[1..], vals[1..])
  }

  /** Segments free of '/' and not empty. */
  predicate Segmentwise(keys: seq<string>)
  {
    forall j :: 0 <= j < |keys| ==> keys[j] != "" && '/' !in keys[j]
  }

  lemma JoinFront(keys: seq<string>)
    requires |keys| >= 2
    ensures Join(keys, '/') == keys[0] + "/" + Join(keys[1..], '/')
  {
  }

  /** A joined path of two or more segments is longer than its first segment, so it is not that key. */
  lemma JoinLonger(keys: seq<string>)
    requires |keys| >= 2
    ensures |Join(keys, '/')| > |keys[0]|
  {
    JoinFront(keys);
  }

  /** Get walks a literal chain to its handler, capturing nothing. */
  lemma {:induction false} LiteralChainWalk(keys: seq<string>, h: Handler, p: Params)
    requires |keys| >= 1 && Segmentwise(keys)
    ensures Walk(LiteralChain(keys, h), Join(keys, '/'), p) == Ok((h, p))
    decreases |keys|
  {
    var node := LiteralChain(keys, h);
    if |keys| >= 2 {
      JoinFront(keys);
      JoinLonger(keys);
      LiteralSegment(node, keys[0], Join(keys[1..], '/'), p);
      LiteralChainWalk(keys[1..], h, p);
    } else {
      LastSegment(node, keys[0], p);
    }
  }

  /** Get walks a parameter chain to its handler, capturing one parameter per segment. */
  lemma {:induction false} ParamChainWalk(node: Route, names: seq<string>, vals: seq<string>, h: Handler, p: Params)
    requires names != [] && |names| == |vals|
    requires forall j :: 0 <= j < |vals| ==> '/' !in vals[j]
    requires node.child == Some(ParamChain(names, h)) && node.children == []
    ensures Walk(node, Join(vals, '/'), p) == Ok((h, p + Zip(names, vals)))
    decreases |names|
  {
    if |names| == 1 {
      LastSegment(node, vals[0], p);
      assert Zip(names, vals) == [Param(names[0], vals[0])];
    } else {
      JoinFront(vals);
      ParamBeforeLiteral(node, vals[0], Join(vals[1..], '/'), p);
      ParamChainWalk(ParamChain(names, h), names[1..], vals[1..], h, p + [Param(names[0], vals[0])]);
      Regroup(p, Param(names[0], vals[0]), Zip(names[1..], vals[1..]));
    }
  }

  // ----- The router package's test table -----

  /** The one-letter segments "a" to "u" the test table nests twenty-one levels deep. */
  const Letters: seq<string> := ["a", "b", "c", "d", "e", "f", "g", "h", "i", "j", "k", "l", "m", "n", "o", "p", "q", "r", "s", "t", "u"]

  lemma LettersSegmentwise()
    ensures Segmentwise(Letters) && |Letters| == 21
    ensures forall a, b :: 0 <= a < b < |Letters| ==> Letters[a] != Letters[b]
    ensures Letters[6] == "g"
  {
  }

  // The tables below take their handlers as parameters: a Go function value
  // has no identity the model can inspect, so a table is stated for any handler ids.

  function DayNode(h: Handler): Route { Route("day", DayCheck, Some(h), None, []) }
  function MonthNode(h: Handler): Route { Route("month", MonthCheck, None, Some(DayNode(h)), []) }
  function YearNode(h: Handler): Route { Route("year", YearCheck, None, Some(MonthNode(h)), []) }
  function ArchivesNode(h: Handler): Route { Blank.(child := Some(YearNode(h))) }
  function SchemaNode(h: Handler): Route { Route("schema", Unchecked, None, None, [("archives", ArchivesNode(h))]) }
  function SchemasNode(h: Handler): Route { Blank.(child := Some(SchemaNode(h))) }
  function TestingNode(h: Handler): Route { LiteralChain(["hello", "world"], h) }
  function NofuncNode(h: Handler): Route { Blank.(child := Some(ParamChain(Letters, h))) }
  function StaticNode(h: Handler): Route { LiteralChain(Letters, h) }

  /**
   * The GET root of the package's `routes` table with its "nofunc" and
   * "static" subtrees left open: the requests that do not go down those two
   * subtrees resolve the same whatever they hold.
   */
  function TestRoot(h: Handler, nofunc: Route, statics: Route): Route
  {
    Blank.(children := [
      ("/", Blank.(handler := Some(h))),
      ("nofunc", nofunc),
      ("static", statics),
      ("schemas", SchemasNode(h)),
      ("testing", TestingNode(h))])
  }

  function TestRoutes(h: Handler, nofunc: Route, statics: Route): seq<(string, Route)>
  {
    [("GET", TestRoot(h, nofunc, statics))]
  }

  /** Keys that are non-empty and hold no '/', except the key "/" itself. */
  predicate PlainKeys<V>(es: seq<(string, V)>)
  {
    forall j :: 0 <= j < |es| ==> es[j].0 != "" && (es[j].0 == "/" || '/' !in es[j].0)
  }

  /** A path holding a '/' is none of such keys, unless it is "/". */
  lemma FindSlashed<V>(es: seq<(string, V)>, u: string, at: int)
    requires PlainKeys(es) && 0 <= at < |u| && u[at] == '/' && u != "/"
    ensures Find(es, u).None?
  {
  }

  lemma TestRootKeys(h: Handler, nofunc: Route, statics: Route)
    ensures var es := TestRoot(h, nofunc, statics).children;
      UniqueKeys(es) && PlainKeys(es) && |es| == 5 && es[0].0 == "/"
  {
  }

  /**
   * A request below one of the root's keys other than "/" is walked from
   * the node under that key: the rest of the path holds a '/', so it is
   * never a key itself.
   */
  lemma TestUnder(h: Handler, nofunc: Route, statics: Route, k: int, rest: string)
    requires 1 <= k < 5
    ensures var es := TestRoot(h, nofunc, statics).children;
      Resolve(TestRoutes(h, nofunc, statics), "GET", "/" + es[k].0 + "/" + rest) == Walk(es[k].1, rest, [])
  {
    var root := TestRoot(h, nofunc, statics);
    var es := root.children;
    TestRootKeys(h, nofunc, statics);
    var key := es[k].0;
    assert key != "/" && '/' !in key;
    var path := "/" + key + "/" + rest;
    assert path[1..] == key + "/" + rest;
    FindUnique(TestRoutes(h, nofunc, statics), 0);
    ResolveWalk(TestRoutes(h, nofunc, statics), "GET", path);
    FindSlashed(es, path[1..], |key|);
    FindUnique(es, k);
    LiteralSegment(root, key, rest, []);
  }

  /** "/" and "" reach the "/" key of the GET root; an unknown method is refused. */
  lemma TestRootPath(h: Handler, nofunc: Route, statics: Route)
    ensures Resolve(TestRoutes(h, nofunc, statics), "GET", "/") == Ok((h, []))
    ensures Resolve(TestRoutes(h, nofunc, statics), "GET", "") == Ok((h, []))
    ensures Resolve(TestRoutes(h, nofunc, statics), "POST", "/") == Fail(Routing(ErrInvalidMethod))
  {
    TestRootKeys(h, nofunc, statics);
    FindUnique(TestRoot(h, nofunc, statics).children, 0);
    assert Find(TestRoutes(h, nofunc, statics), "POST").None? by {
      assert "GET"[0] != "POST"[0];
    }
  }

  /** A static request down a literal chain under "static", whatever "nofunc" holds. */
  lemma TestStaticChain(h: Handler, nofunc: Route, keys: seq<string>)
    requires |keys| >= 1 && Segmentwise(keys)
    ensures Resolve(TestRoutes(h, nofunc, LiteralChain(keys, h)), "GET", "/" + Join(["static"] + keys, '/')) == Ok((h, []))
  {
    var rest := Join(keys, '/');
    assert "/" + Join(["static"] + keys, '/') == "/" + "static" + "/" + rest by {
      JoinCons("static", keys);
    }
    TestUnder(h, nofunc, LiteralChain(keys, h), 2, rest);
    LiteralChainWalk(keys, h, []);
  }

  /** The long static request: twenty-one literal levels under "static". */
  lemma TestLongStatic(h: Handler, nofunc: Route)
    ensures Resolve(TestRoutes(h, nofunc, StaticNode(h)), "GET", "/" + Join(["static"] + Letters, '/')) == Ok((h, []))
  {
    LettersSegmentwise();
    TestStaticChain(h, nofunc, Letters);
  }

  /** A request down a parameter chain under "nofunc" captures one value per name, whatever "static" holds. */
  lemma TestParamChain(h: Handler, statics: Route, names: seq<string>, vals: seq<string>)
    requires |names| == |vals| >= 1 && forall j :: 0 <= j < |vals| ==> '/' !in vals[j]
    ensures var nofunc := Blank.(child := Some(ParamChain(names, h)));
      Resolve(TestRoutes(h, nofunc, statics), "GET", "/" + Join(["nofunc"] + vals, '/')) == Ok((h, Zip(names, vals)))
  {
    var nofunc := Blank.(child := Some(ParamChain(names, h)));
    var rest := Join(vals, '/');
    assert "/" + Join(["nofunc"] + vals, '/') == "/" + "nofunc" + "/" + rest by {
      JoinCons("nofunc", vals);
    }
    TestUnder(h, nofunc, statics, 1, rest);
    ParamChainWalk(nofunc, names, vals, h, []);
    assert [] + Zip(names, vals) == Zip(names, vals);
  }

  /** The long parameter request: twenty-one captures under "nofunc", "g" among them. */
  lemma TestLongParam(h: Handler, statics: Route)
    ensures var r := Resolve(TestRoutes(h, NofuncNode(h), statics), "GET", "/" + Join(["nofunc"] + Letters, '/'));
      && r == Ok((h, Zip(Letters, Letters)))
      && Get(r.value.1, "g") == "g"
  {
    LettersSegmentwise();
    TestParamChain(h, statics, Letters, Letters);
    ZipGet(Letters, 6);
  }

  /** In a zip of distinct single letters, looking a letter up finds that letter. */
  lemma {:induction false} ZipGet(ks: seq<string>, j: nat)
    requires j < |ks| && forall a, b :: 0 <= a < b < |ks| ==> ks[a] != ks[b]
    ensures Get(Zip(ks, ks), ks[j]) == ks[j]
    decreases j
  {
    if j > 0 {
      ZipGet(ks[1..], j - 1);
    }
  }

  /** The archive walk below "archives": year, month and day each pass their check or stop the walk. */
  lemma ArchivesWalk(h: Handler, y: string, m: string, d: string, p: Params)
    requires '/' !in y && '/' !in m && '/' !in d
    ensures var r := Walk(ArchivesNode(h), y + "/" + m + "/" + d, p);
      && (Util.IsYear(y) == Ok(true) && Util.IsMonth(m) && Util.IsDay(d) ==>
            r == Ok((h, p + [Param("year", y), Param("month", m), Param("day", d)])))
      && (Util.IsYear(y) == Ok(false) || (Util.IsYear(y) == Ok(true) && !Util.IsMonth(m)) ==> r == Fail(NotFound))
  {
    var md := m + "/" + d;
    var q := p + [Param("year", y)];
    var q2 := q + [Param("month", m)];
    var r := Walk(ArchivesNode(h), y + "/" + m + "/" + d, p);
    assert (Util.IsYear(y) == Ok(true) ==> r == Walk(YearNode(h), md, q)) && (Util.IsYear(y) == Ok(false) ==> r == Fail(NotFound)) by {
      assert y + "/" + m + "/" + d == y + "/" + md;
      ParamBeforeLiteral(ArchivesNode(h), y, md, p);
    }
    assert (Util.IsMonth(m) ==> Walk(YearNode(h), md, q) == Walk(MonthNode(h), d, q2)) && (!Util.IsMonth(m) ==> Walk(YearNode(h), md, q) == Fail(NotFound)) by {
      ParamBeforeLiteral(YearNode(h), m, d, q);
    }
    assert Util.IsDay(d) ==> Walk(MonthNode(h), d, q2) == Ok((h, p + [Param("year", y), Param("month", m), Param("day", d)])) by {
      LastSegment(MonthNode(h), d, q2);
      assert q2 + [Param("day", d)] == p + [Param("year", y), Param("month", m), Param("day", d)];
    }
  }

  /** A request under "schemas" captures the schema segment and then goes through the archive walk. */
  lemma SchemasWalk(h: Handler, schema: string, ymd: string)
    requires '/' !in schema
    ensures Walk(SchemasNode(h), schema + "/archives/" + ymd, []) == Walk(ArchivesNode(h), ymd, [Param("schema", schema)])
  {
    var q := [Param("schema", schema)];
    assert Walk(SchemasNode(h), schema + "/archives/" + ymd, []) == Walk(SchemaNode(h), "archives/" + ymd, q) by {
      assert schema + "/archives/" + ymd == schema + "/" + ("archives/" + ymd);
      SchemaCapture(h, schema, "archives/" + ymd);
    }
    ArchivesKey(h, ymd, q);
  }

  /** Below "schemas" any first segment is captured as the schema. */
  lemma SchemaCapture(h: Handler, schema: string, rest: string)
    requires '/' !in schema
    ensures Walk(SchemasNode(h), schema + "/" + rest, []) == Walk(SchemaNode(h), rest, [Param("schema", schema)])
  {
    assert SchemasNode(h).children == [];
    ParamBeforeLiteral(SchemasNode(h), schema, rest, []);
    assert [] + [Param("schema", schema)] == [Param("schema", schema)];
  }

  /** Below the schema the literal "archives" leads to the year node. */
  lemma ArchivesKey(h: Handler, ymd: string, q: Params)
    ensures Walk(SchemaNode(h), "archives/" + ymd, q) == Walk(ArchivesNode(h), ymd, q)
  {
    var es := SchemaNode(h).children;
    var rest := "archives/" + ymd;
    assert rest == "archives" + "/" + ymd;
    assert PlainKeys(es) && es[0] == ("archives", ArchivesNode(h));
    FindSlashed(es, rest, 8);
    FindUnique(es, 0);
    LiteralSegment(SchemaNode(h), "archives", ymd, q);
  }

  /** The parameters the short request captures. */
  const ShortParams: Params := [Param("schema", "test"), Param("year", "2015"), Param("month", "02"), Param("day", "12")]

  /** The short request's path, cut where the walk cuts it. */
  lemma ShortPath(m: string)
    requires |m| == 2
    ensures "/schemas/test/archives/2015/" + m + "/12" == "/" + "schemas" + "/" + ("test" + "/archives/" + ("2015" + "/" + m + "/" + "12"))
  {
  }

  /** A date request under "schemas", for any schema, year, month and day segments. */
  lemma TestSchemaDate(h: Handler, nofunc: Route, statics: Route, schema: string, y: string, m: string, d: string)
    requires '/' !in schema && '/' !in y && '/' !in m && '/' !in d
    ensures var r := Resolve(TestRoutes(h, nofunc, statics), "GET", "/" + "schemas" + "/" + (schema + "/archives/" + (y + "/" + m + "/" + d)));
      && (Util.IsYear(y) == Ok(true) && Util.IsMonth(m) && Util.IsDay(d) ==>
            r == Ok((h, [Param("schema", schema), Param("year", y), Param("month", m), Param("day", d)])))
      && (Util.IsYear(y) == Ok(false) || (Util.IsYear(y) == Ok(true) && !Util.IsMonth(m)) ==> r == Fail(NotFound))
  {
    var ymd := y + "/" + m + "/" + d;
    var q := [Param("schema", schema)];
    SchemaRequest(h, nofunc, statics, schema, ymd);
    ArchivesWalk(h, y, m, d, q);
    assert q + [Param("year", y), Param("month", m), Param("day", d)]
      == [Param("schema", schema), Param("year", y), Param("month", m), Param("day", d)];
  }

  lemma SchemaRequest(h: Handler, nofunc: Route, statics: Route, schema: string, ymd: string)
    requires '/' !in schema
    ensures Resolve(TestRoutes(h, nofunc, statics), "GET", "/" + "schemas" + "/" + (schema + "/archives/" + ymd)) ==
      Walk(ArchivesNode(h), ymd, [Param("schema", schema)])
  {
    TestUnder(h, nofunc, statics, 3, schema + "/archives/" + ymd);
    SchemasWalk(h, schema, ymd);
  }

  /** The short request "/schemas/test/archives/2015/02/12" and its rejected variant with month 13. */
  lemma TestShortParam(h: Handler, nofunc: Route, statics: Route)
    ensures Resolve(TestRoutes(h, nofunc, statics), "GET", "/schemas/test/archives/2015/02/12") == Ok((h, ShortParams))
    ensures Resolve(TestRoutes(h, nofunc, statics), "GET", "/schemas/test/archives/2015/13/12") == Fail(NotFound)
  {
    assert "/schemas/test/archives/2015/02/12" == "/schemas/test/archives/2015/" + "02" + "/12";
    assert "/schemas/test/archives/2015/13/12" == "/schemas/test/archives/2015/" + "13" + "/12";
    ShortPath("02");
    ShortPath("13");
    Util.IsYearFourBytes("2015");
    assert Util.IsMonth("02") && Util.IsDay("12") && !Util.IsMonth("13");
    TestSchemaDate(h, nofunc, statics, "test", "2015", "02", "12");
    TestSchemaDate(h, nofunc, statics, "test", "2015", "13", "12");
  }

  /** Below "testing": "hello" is a node without a handler, "hello/world" reaches the handler. */
  lemma TestingWalk(h: Handler)
    ensures Walk(TestingNode(h), "hello", []) == Fail(NotFound)
    ensures Walk(TestingNode(h), "hello/world", []) == Ok((h, []))
  {
    var hello := TestingNode(h);
    FindUnique(hello.children, 0);
    LastSegment(hello, "hello", []);
    assert Join(["hello", "world"], '/') == "hello/world";
    LiteralChainWalk(["hello", "world"], h, []);
  }

  /** A node on the way without a handler is not a match: "/testing/hello" fails, "/testing/hello/world" does not. */
  lemma TestIntermediateNode(h: Handler, nofunc: Route, statics: Route)
    ensures Resolve(TestRoutes(h, nofunc, statics), "GET", "/testing/hello") == Fail(NotFound)
    ensures Resolve(TestRoutes(h, nofunc, statics), "GET", "/testing/hello/world") == Ok((h, []))
  {
    assert "/testing/hello" == "/" + "testing" + "/" + "hello";
    assert "/testing/hello/world" == "/" + "testing" + "/" + "hello/world";
    TestUnder(h, nofunc, statics, 4, "hello");
    TestUnder(h, nofunc, statics, 4, "hello/world");
    TestingWalk(h);
  }

  /** The params test: year reads as 2015 with GetInt. */
  lemma TestParamsYear()
    ensures GetInt(ShortParams, "year") == (2015, None)
  {
    ParseUintMeaning("2015");
    assert Value("2015") == 2015;
  }

  /** The params test: day scans into a byte slice as "12", whatever a Scanner would return. */
  lemma TestParamsDay(scannerErr: Option<Err>)
    ensures ScanSpec(ShortParams, "day", BytesPtr, scannerErr) == (StoreText("12"), None)
  {
    assert Get(ShortParams, "day") == "12";
  }

  /**
   * The params test: month scans into its int-kinded type as 2; that type
   * also implements Scanner, and its own Scan is not called.
   */
  lemma TestParamsMonth(scannerErr: Option<Err>)
    ensures ScanSpec(ShortParams, "month", PointerTo(Signed(64), true), scannerErr) == (StoreNumber(2), None)
  {
    assert GetInt(ShortParams, "month") == (2, None) by {
      assert Get(ShortParams, "month") == "02";
      ParseUintMeaning("02");
      assert Value("02") == 2;
    }
    ScanInteger(ShortParams, "month", PointerTo(Signed(64), true), scannerErr);
  }

  // ----- The example website's table -----

  function HelloNode(hello: Handler): Route
  {
    Blank.(child := Some(Route("str", Unchecked, Some(hello), None, [])))
  }

  function PrintNumNode(printnum: Handler): Route
  {
    Blank.(child := Some(Route("num", NumberCheck, Some(printnum), None, [])))
  }

  /** The website's GET root, for the handler ids of index, hello and printnum. */
  function WebsiteRoot(index: Handler, hello: Handler, printnum: Handler): Route
  {
    Blank.(children := [
      ("hello", HelloNode(hello)),
      ("printnum", PrintNumNode(printnum)),
      ("/", Blank.(handler := Some(index)))])
  }

  function WebsiteRoutes(index: Handler, hello: Handler, printnum: Handler): seq<(string, Route)>
  {
    [("GET", WebsiteRoot(index, hello, printnum))]
  }

  const WebsiteValidators: map<string, Check> := map["$num" := NumberCheck]


  lemma WebsiteRootKeys(index: Handler, hello: Handler, printnum: Handler)
    ensures var es := WebsiteRoot(index, hello, printnum).children;
      UniqueKeys(es) && PlainKeys(es) && |es| == 3 && es[2].0 == "/"
  {
  }

  /** A request below "hello" or "printnum" is walked from the node under that key. */
  lemma WebsiteUnder(index: Handler, hello: Handler, printnum: Handler, k: int, rest: string)
    requires 0 <= k < 2
    ensures var es := WebsiteRoot(index, hello, printnum).children;
      Resolve(WebsiteRoutes(index, hello, printnum), "GET", "/" + es[k].0 + "/" + rest) == Walk(es[k].1, rest, [])
  {
    var root := WebsiteRoot(index, hello, printnum);
    var es := root.children;
    WebsiteRootKeys(index, hello, printnum);
    var key := es[k].0;
    assert key != "/" && '/' !in key;
    var path := "/" + key + "/" + rest;
    assert path[1..] == key + "/" + rest;
    FindUnique(WebsiteRoutes(index, hello, printnum), 0);
    ResolveWalk(WebsiteRoutes(index, hello, printnum), "GET", path);
    FindSlashed(es, path[1..], |key|);
    FindUnique(es, k);
    LiteralSegment(root, key, rest, []);
  }

  /** "/hello/{name}" greets any name without a '/', the empty one included. */
  lemma WebsiteHello(index: Handler, hello: Handler, printnum: Handler, name: string)
    requires '/' !in name
    ensures Resolve(WebsiteRoutes(index, hello, printnum), "GET", "/" + "hello" + "/" + name) == Ok((hello, [Param("str", name)]))
  {
    WebsiteUnder(index, hello, printnum, 0, name);
    var node := HelloNode(hello);
    assert Walk(node, name, []) == Ok((hello, [Param("str", name)])) by {
      assert node.children == [];
      LastSegment(node, name, []);
      assert [] + [Param("str", name)] == [Param("str", name)];
    }
  }

  /** "/printnum/{num}" reaches printnum exactly when validateNumber accepts the segment. */
  lemma WebsitePrintNum(index: Handler, hello: Handler, printnum: Handler, n: string)
    requires '/' !in n
    ensures Website.ValidateNumber(n) ==>
      Resolve(WebsiteRoutes(index, hello, printnum), "GET", "/" + "printnum" + "/" + n) == Ok((printnum, [Param("num", n)]))
    ensures !Website.ValidateNumber(n) ==>
      Resolve(WebsiteRoutes(index, hello, printnum), "GET", "/" + "printnum" + "/" + n) == Fail(NotFound)
  {
    WebsiteUnder(index, hello, printnum, 1, n);
    var node := PrintNumNode(printnum);
    assert node.children == [];
    LastSegment(node, n, []);
    assert [] + [Param("num", n)] == [Param("num", n)];
    assert Accepts(NumberCheck, n) == Ok(Website.ValidateNumber(n));
  }

  /** The website answers "/" with index, greets bob, prints 123 and refuses abc. */
  lemma WebsiteRequests(index: Handler, hello: Handler, printnum: Handler)
    ensures Resolve(WebsiteRoutes(index, hello, printnum), "GET", "/") == Ok((index, []))
    ensures Resolve(WebsiteRoutes(index, hello, printnum), "GET", "/hello/bob") == Ok((hello, [Param("str", "bob")]))
    ensures Resolve(WebsiteRoutes(index, hello, printnum), "GET", "/printnum/123") == Ok((printnum, [Param("num", "123")]))
    ensures Resolve(WebsiteRoutes(index, hello, printnum), "GET", "/printnum/abc") == Fail(NotFound)
  {
    assert "/" + "hello" + "/" + "bob" == "/hello/bob";
    assert "/" + "printnum" + "/" + "123" == "/printnum/123";
    assert "/" + "printnum" + "/" + "abc" == "/printnum/abc";
    WebsiteRootKeys(index, hello, printnum);
    FindUnique(WebsiteRoot(index, hello, printnum).children, 2);
    WebsiteHello(index, hello, printnum, "bob");
    assert Website.ValidateNumber("123");
    WebsitePrintNum(index, hello, printnum, "123");
    assert !Website.ValidateNumber("abc") by {
      assert "abc"[0] == 'a';
    }
    WebsitePrintNum(index, hello, printnum, "abc");
  }

  /** Adding "printnum/$num" for GET to an empty router, with the website's validators, builds the website's printnum subtree. */
  lemma WebsiteAddPrintNum(printnum: Handler)
    ensures AddSpec([], WebsiteValidators, "GET", "printnum/$num", printnum) ==
      ([("GET", Blank.(children := [("printnum", PrintNumNode(printnum))]))], Ok(()))
  {
    var root := RunThenParam(Join(["printnum"], '/'), "num", ValidatorFor(WebsiteValidators, "$" + "num"), printnum);
    assert root == Blank.(children := [("printnum", PrintNumNode(printnum))]) by {
      assert Join(["printnum"], '/') == "printnum";
      assert "$" + "num" == "$num";
    }
    var u := Join(["printnum"], '/') + "/$" + "num";
    assert u == "printnum/$num";
    assert ToUpper("GET") == "GET" by { ToUpperNoLower("GET"); }
    assert AddSpec([], WebsiteValidators, "GET", u, printnum) == ([("GET", root)], Ok(())) by {
      assert PlainSegments(["printnum"]);
      AddRunParam([], WebsiteValidators, "GET", ["printnum"], "num", printnum);
      assert [] + [("GET", root)] == [("GET", root)];
    }
  }

  /** "a/b/$x" added to an empty router is one key "a/b", so "/a/b/foo" is not found. */
  lemma AddCoalescedExample()
    ensures var r := AddSpec([], map[], "GET", "a/b/$x", 7);
      r.1 == Ok(()) && Resolve(r.0, "GET", "/a/b/foo") == Fail(NotFound)
  {
    ToUpperNoLower("GET");
    assert Join(["a", "b"], '/') + "/$" + "x" == "a/b/$x";
    assert PlainSegments(["a", "b"]);
    assert "/" + Join(["a", "b"] + ["foo"], '/') == "/a/b/foo" by {
      assert ["a", "b"] + ["foo"] == ["a", "b", "foo"];
      assert ["a", "b", "foo"][1..] == ["b", "foo"] && ["b", "foo"][1..] == ["foo"];
      assert Join(["b", "foo"], '/') == "b/foo";
    }
    AddCoalescedUnreachable([], map[], "GET", ["a", "b"], "x", "foo", 7);
  }

  /** "/x" for a new method fails with the invalid-path error but registers GET; a later Add for GET then panics. */
  lemma AddAfterFailure()
    ensures var r := AddSpec([], map[], "get", "/x", 1);
      && r == ([("GET", Blank)], Fail(ErrInvalidPath))
      && AddSpec(r.0, map[], "GET", "y", 2) == (r.0, Panic(NilDereference))
  {
    var routes: seq<(string, Route)> := [("GET", Blank)];
    assert ToUpper("get") == "GET";
    assert ToUpper("GET") == "GET" by { ToUpperNoLower("GET"); }
    assert AddSpec([], map[], "get", "/" + "x", 1) == (routes, Fail(ErrInvalidPath)) by {
      AddLeadingSlash([], map[], "get", "x", 1);
      assert [] + [("GET", Blank)] == routes;
    }
    assert "/" + "x" == "/x";
    assert AddSpec(routes, map[], "GET", Join(["y"], '/'), 2) == (routes, Panic(NilDereference)) by {
      assert Find(routes, "GET").Some?;
      AddExisting(routes, map[], "GET", ["y"], 2);
    }
    assert Join(["y"], '/') == "y";
  }
}
