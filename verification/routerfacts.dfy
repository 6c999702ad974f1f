/**
 * What the router's Get and Add promise, stated over the specification
 * functions Resolve, Walk and AddSpec that the methods are proved against.
 */
module RouterFacts {
  import opened Optional
  import opened Entries
  import opened GoStrings
  import opened Errors
  import opened Params
  import Util
  import opened Router

  // ----- Precedence at one node -----

  /**
   * With more path to come and no literal key for the whole rest, a node
   * with a parameter child hands the next segment to that child: a literal
   * child for the same segment is never consulted.
   */
  lemma {:induction false} ParamBeforeLiteral(route: Route, s: string, rest: string, p: Params)
    requires route.child.Some? && '/' !in s
    requires Find(route.children, s + "/" + rest).None?
    ensures var c := route.child.value;
      Accepts(c.check, s) == Ok(true) ==> Walk(route, s + "/" + rest, p) == Walk(c, rest, p + [Param(c.param, s)])
    ensures Accepts(route.child.value.check, s) == Ok(false) ==> Walk(route, s + "/" + rest, p) == Fail(NotFound)
    ensures Accepts(route.child.value.check, s).Panic? ==>
      Walk(route, s + "/" + rest, p) == Panic(Accepts(route.child.value.check, s).fault)
  {
    IndexByteAfter(s, '/', rest);
    assert s + "/" + rest == s + ['/'] + rest;
    var u := s + "/" + rest;
    assert u[..|s|] == s && u[|s| + 1..] == rest;
  }

  /** Without a parameter child, the next segment must be a literal key, or the lookup fails. */
  lemma {:induction false} LiteralSegment(route: Route, s: string, rest: string, p: Params)
    requires route.child.None? && '/' !in s
    requires Find(route.children, s + "/" + rest).None?
    ensures Find(route.children, s).None? ==> Walk(route, s + "/" + rest, p) == Fail(NotFound)
    ensures Find(route.children, s).Some? ==> Walk(route, s + "/" + rest, p) == Walk(Find(route.children, s).value, rest, p)
  {
    IndexByteAfter(s, '/', rest);
    assert s + "/" + rest == s + ['/'] + rest;
    var u := s + "/" + rest;
    assert u[..|s|] == s && u[|s| + 1..] == rest;
  }

  /** The last segment: a literal key for it wins, then a parameter child that accepts it; nothing else matches. */
  lemma {:induction false} LastSegment(route: Route, s: string, p: Params)
    requires '/' !in s
    ensures Find(route.children, s).Some? ==> Walk(route, s, p) == Finish(Find(route.children, s).value, p)
    ensures Find(route.children, s).None? && route.child.None? ==> Walk(route, s, p) == Fail(NotFound)
    ensures Find(route.children, s).None? && route.child.Some? && Accepts(route.child.value.check, s) == Ok(true) ==>
      Walk(route, s, p) == Finish(route.child.value, p + [Param(route.child.value.param, s)])
  {
    IndexByteAbsent(s, '/');
  }

  // ----- Soundness of a match -----

  /** One step of a successful walk: a whole-rest key, a single-segment key, or a captured segment. */
  datatype Step = Whole(key: string) | Lit(key: string) | Capture(name: string, seg: string)

  function Text(st: Step): string
  {
    match st
    case Whole(k) => k
    case Lit(k) => k
    case Capture(_, s) => s
  }

  /** The path a sequence of steps consumes: their texts joined by '/'. */
  function Spell(steps: seq<Step>): string
    requires steps != []
    decreases |steps|
  {
    if |steps| == 1 then Text(steps[0]) else Text(steps[0]) + "/" + Spell(steps[1..])
  }

  /** The parameters a sequence of steps captures, in order. */
  function Captures(steps: seq<Step>): Params
    decreases |steps|
  {
    if steps == [] then []
    else (if steps[0].Capture? then [Param(steps[0].name, steps[0].seg)] else []) + Captures(steps[1..])
  }

  /**
   * The steps lead from route to a node with handler h: literal steps
   * follow keys without '/', captures follow the parameter child and pass its
   * check, and only the last step may use a key holding '/'.
   */
  predicate Follows(route: Route, steps: seq<Step>, h: Handler)
    decreases |steps|
  {
    && steps != []
    && match steps[0]
      case Whole(k) =>
        |steps| == 1 && Find(route.children, k).Some? && Find(route.children, k).value.handler == Some(h)
      case Lit(k) =>
        |steps| > 1 && '/' !in k && Find(route.children, k).Some? && Follows(Find(route.children, k).value, steps[1..], h)
      case Capture(n, s) =>
        && '/' !in s && route.child.Some? && route.child.value.param == n
        && Accepts(route.child.value.check, s) == Ok(true)
        && if |steps| == 1 then route.child.value.handler == Some(h) else Follows(route.child.value, steps[1..], h)
  }

  /** A '/' at i splits u into the segment before it and the rest after it. */
  lemma SplitAt(u: string, i: int)
    requires 0 <= i < |u| && u[i] == '/'
    ensures u == u[..i] + "/" + u[i + 1..]
  {
  }

  lemma Regroup<T>(a: seq<T>, x: T, b: seq<T>)
    ensures (a + [x]) + b == a + ([x] + b)
  {
  }

  /** A captured segment in front of a path from the parameter child. */
  lemma CaptureFront(route: Route, s: string, tail: seq<Step>, h: Handler)
    requires route.child.Some? && '/' !in s && Accepts(route.child.value.check, s) == Ok(true)
    requires Follows(route.child.value, tail, h)
    ensures var steps := [Capture(route.child.value.param, s)] + tail;
      && Follows(route, steps, h)
      && Spell(steps) == s + "/" + Spell(tail)
      && Captures(steps) == [Param(route.child.value.param, s)] + Captures(tail)
  {
    var steps := [Capture(route.child.value.param, s)] + tail;
    assert steps[1..] == tail;
  }

  /** A single-segment literal key in front of a path from its node. */
  lemma LiteralFront(route: Route, s: string, tail: seq<Step>, h: Handler)
    requires '/' !in s && Find(route.children, s).Some?
    requires Follows(Find(route.children, s).value, tail, h)
    ensures var steps := [Lit(s)] + tail;
      && Follows(route, steps, h)
      && Spell(steps) == s + "/" + Spell(tail)
      && Captures(steps) == Captures(tail)
  {
    var steps := [Lit(s)] + tail;
    assert steps[1..] == tail;
  }

  /** A walk that succeeds took a path through the trie that spells the request and captured its parameters. */
  lemma {:induction false} WalkSound(route: Route, u: string, p: Params, h: Handler, ps: Params)
    requires Walk(route, u, p) == Ok((h, ps))
    ensures exists steps :: Follows(route, steps, h) && Spell(steps) == u && ps == p + Captures(steps)
    decreases |u|, 1
  {
    if Find(route.children, u).Some? {
      var steps := [Whole(u)];
      assert Follows(route, steps, h) && Spell(steps) == u && ps == p + Captures(steps);
    } else if route.child.Some? {
      CaptureSound(route, u, p, h, ps);
    } else {
      LiteralSound(route, u, p, h, ps);
    }
  }

  lemma {:induction false} CaptureSound(route: Route, u: string, p: Params, h: Handler, ps: Params)
    requires Walk(route, u, p) == Ok((h, ps))
    requires Find(route.children, u).None? && route.child.Some?
    ensures exists steps :: Follows(route, steps, h) && Spell(steps) == u && ps == p + Captures(steps)
    decreases |u|, 0
  {
    var c := route.child.value;
    var i := IndexByte(u, '/');
    if i == -1 {
      var steps := [Capture(c.param, u)];
      assert Follows(route, steps, h) && Spell(steps) == u && ps == p + Captures(steps);
    } else {
      var s, rest := u[..i], u[i + 1..];
      var q := p + [Param(c.param, s)];
      SplitAt(u, i);
      ParamBeforeLiteral(route, s, rest, p);
      assert Accepts(c.check, s) == Ok(true);
      WalkSound(c, rest, q, h, ps);
      var tail :| Follows(c, tail, h) && Spell(tail) == rest && ps == q + Captures(tail);
      CaptureFront(route, s, tail, h);
      var steps := [Capture(c.param, s)] + tail;
      Regroup(p, Param(c.param, s), Captures(tail));
      assert Follows(route, steps, h) && Spell(steps) == u && ps == p + Captures(steps);
    }
  }

  lemma {:induction false} LiteralSound(route: Route, u: string, p: Params, h: Handler, ps: Params)
    requires Walk(route, u, p) == Ok((h, ps))
    requires Find(route.children, u).None? && route.child.None?
    ensures exists steps :: Follows(route, steps, h) && Spell(steps) == u && ps == p + Captures(steps)
    decreases |u|, 0
  {
    var i := IndexByte(u, '/');
    var s, rest := u[..i], u[i + 1..];
    SplitAt(u, i);
    LiteralSegment(route, s, rest, p);
    var v := Find(route.children, s).value;
    WalkSound(v, rest, p, h, ps);
    var tail :| Follows(v, tail, h) && Spell(tail) == rest && ps == p + Captures(tail);
    LiteralFront(route, s, tail, h);
    var steps := [Lit(s)] + tail;
    assert Follows(route, steps, h) && Spell(steps) == u && ps == p + Captures(steps);
  }

  /** Any path longer than "/" that starts with '/' is walked from the method's root without that '/'. */
  lemma ResolveWalk(routes: seq<(string, Route)>, verb: string, path: string)
    requires Find(routes, verb).Some? && |path| >= 2 && path[0] == '/'
    ensures Resolve(routes, verb, path) == Walk(Find(routes, verb).value, path[1..], [])
  {
  }

  /**
   * ServeHTTP never writes 500: an unknown method gets 405, a missing route
   * 404, and otherwise the handler runs or a check's panic goes through.
   */
  lemma ServeStatus(routes: seq<(string, Route)>, verb: string, path: string)
    ensures var reply := Serve(Resolve(routes, verb, path));
      reply.Status? ==> reply.code == StatusMethodNotAllowed || reply.code == StatusNotFound
    ensures Find(routes, verb).None? ==> Serve(Resolve(routes, verb, path)) == Status(StatusMethodNotAllowed)
    ensures Find(routes, verb).Some? ==>
      var reply := Serve(Resolve(routes, verb, path));
      reply.Status? ==> reply.code == StatusNotFound
  {
    PredefinedErrors();
  }

  // ----- Add -----

  /** Add touches only the root of its own method: every other method keeps its root, or stays absent. */
  lemma AddOther(routes: seq<(string, Route)>, validators: map<string, Check>, m: string, u: string, h: Handler, k: string)
    requires k != ToUpper(m)
    ensures Find(AddSpec(routes, validators, m, u, h).0, k) == Find(routes, k)
  {
    if Find(routes, ToUpper(m)).None? {
      var root := Insert(Blank, Segments(u), 0, h, validators).0;
      PutNew(routes, ToUpper(m), root);
      PutOther(routes, ToUpper(m), root, k);
    }
  }

  /** The segments of a pattern of plain literal segments are those segments. */
  predicate PlainSegments(segs: seq<string>)
  {
    && |segs| >= 1
    && forall j :: 0 <= j < |segs| ==> segs[j] != "" && '/' !in segs[j] && segs[j][0] != '$'
  }

  lemma {:induction false} LiteralRunAll(segs: seq<string>)
    requires forall j :: 0 <= j < |segs| ==> segs[j] != "" && segs[j][0] != '$'
    ensures Util.LiteralRun(segs) == Ok(segs)
  {
    if segs != [] {
      LiteralRunAll(segs[1..]);
      assert [segs[0]] + segs[1..] == segs;
    }
  }

  /**
   * Round trip for literal patterns: after Add for a new method, Get finds
   * the handler for the pattern, with or without a leading '/', and with no
   * parameters. The segments are coalesced into one key.
   */
  lemma AddThenGetLiteral(routes: seq<(string, Route)>, validators: map<string, Check>, m: string, segs: seq<string>, h: Handler)
    requires Find(routes, ToUpper(m)).None? && PlainSegments(segs)
    ensures var u := Join(segs, '/');
      var r := AddSpec(routes, validators, m, u, h);
      && r.1 == Ok(())
      && Resolve(r.0, ToUpper(m), u) == Ok((h, []))
      && Resolve(r.0, ToUpper(m), "/" + u) == Ok((h, []))
  {
    var u := Join(segs, '/');
    SplitJoin(segs, '/');
    LiteralRunAll(segs);
    assert u != "/" by {
      if u == "/" { JoinHasSegment(segs); }
    }
    assert Segments(u) == segs;
    var leaf := Blank.(handler := Some(h));
    assert Insert(Blank, segs, 0, h, validators) == (Blank.(children := [(u, leaf)]), Ok(()));
    var r := AddSpec(routes, validators, m, u, h);
    PutNew(routes, ToUpper(m), Blank.(children := [(u, leaf)]));
    assert Find(r.0, ToUpper(m)) == Some(Blank.(children := [(u, leaf)]));
    JoinHasSegment(segs);
    assert u != "" && u[0] != '/';
    assert ("/" + u)[1..] == u;
  }

  /** A pattern's first segment is a prefix of the joined pattern. */
  lemma {:induction false} JoinHasSegment(segs: seq<string>)
    requires |segs| >= 1 && segs[0] != "" && '/' !in segs[0]
    ensures |Join(segs, '/')| >= |segs[0]| && Join(segs, '/')[..|segs[0]|] == segs[0]
    ensures Join(segs, '/') != "/"
  {
  }

  /** Round trip for the root pattern "/": Get for "" and for "/" finds the handler. */
  lemma AddThenGetRoot(routes: seq<(string, Route)>, validators: map<string, Check>, m: string, h: Handler)
    requires Find(routes, ToUpper(m)).None?
    ensures var r := AddSpec(routes, validators, m, "/", h);
      && r.1 == Ok(())
      && Resolve(r.0, ToUpper(m), "") == Ok((h, []))
      && Resolve(r.0, ToUpper(m), "/") == Ok((h, []))
  {
    LiteralRunAll(["/"]);
    var root := Blank.(children := [("/", Blank.(handler := Some(h)))]);
    assert Insert(Blank, ["/"], 0, h, validators) == (root, Ok(()));
    PutNew(routes, ToUpper(m), root);
  }

  /** A pattern with a leading '/' has an empty first segment. */
  lemma LeadingSlashSegments(w: string)
    requires w != ""
    ensures Segments("/" + w)[0] == ""
  {
    var u := "/" + w;
    assert u != "/";
    assert IndexByte(u, '/') == 0;
  }

  /**
   * A pattern with a leading '/' (other than "/" itself) is refused with the
   * invalid-path error; for a new method the empty root stays registered,
   * and for a known one the table is unchanged.
   */
  lemma AddLeadingSlash(routes: seq<(string, Route)>, validators: map<string, Check>, m: string, w: string, h: Handler)
    requires w != ""
    ensures var r := AddSpec(routes, validators, m, "/" + w, h);
      && r.1 == Fail(ErrInvalidPath)
      && r.0 == if Find(routes, ToUpper(m)).Some? then routes else routes + [(ToUpper(m), Blank)]
  {
    LeadingSlashSegments(w);
  }

  /**
   * Add for a method that already has a root never changes the table: a
   * pattern of plain literal segments, or one starting with a parameter,
   * dereferences the nil cursor.
   */
  lemma AddExisting(routes: seq<(string, Route)>, validators: map<string, Check>, m: string, segs: seq<string>, h: Handler)
    requires Find(routes, ToUpper(m)).Some?
    requires |segs| >= 1 && forall j :: 0 <= j < |segs| ==> segs[j] != "" && '/' !in segs[j]
    requires segs[0][0] == '$' || forall j :: 0 <= j < |segs| ==> segs[j][0] != '$'
    ensures AddSpec(routes, validators, m, Join(segs, '/'), h) == (routes, Panic(NilDereference))
  {
    var u := Join(segs, '/');
    SplitJoin(segs, '/');
    assert u != "/" by {
      if u == "/" { JoinHasSegment(segs); }
    }
    if segs[0][0] != '$' {
      LiteralRunAll(segs);
    }
  }

  /** The literal run in front of a parameter segment is the literal segments. */
  lemma {:induction false} LiteralRunBefore(segs: seq<string>, t: string)
    requires forall j :: 0 <= j < |segs| ==> segs[j] != "" && segs[j][0] != '$'
    requires t != "" && t[0] == '$'
    ensures Util.LiteralRun(segs + [t]) == Ok(segs)
  {
    if segs != [] {
      assert (segs + [t])[1..] == segs[1..] + [t];
      LiteralRunBefore(segs[1..], t);
      assert [segs[0]] + segs[1..] == segs;
    } else {
      assert [] + [t] == [t];
    }
  }

  /** The node Add leaves for a literal run followed by one parameter "$x". */
  function RunThenParam(run: string, x: string, check: Check, h: Handler): Route
  {
    Blank.(children := [(run, Blank.(child := Some(Route(x, check, Some(h), None, []))))])
  }

  /** From a fresh root, a literal run then "$x" builds one coalesced key whose node has x as its parameter child. */
  lemma InsertRunParam(segs: seq<string>, x: string, h: Handler, validators: map<string, Check>)
    requires PlainSegments(segs)
    ensures Insert(Blank, segs + ["$" + x], 0, h, validators) ==
      (RunThenParam(Join(segs, '/'), x, ValidatorFor(validators, "$" + x), h), Ok(()))
  {
    var t := "$" + x;
    var p := segs + [t];
    LiteralRunBefore(segs, t);
    assert p[0..] == p;
    assert p[|segs|] == t && t[1..] == x;
    var kid := Route(x, ValidatorFor(validators, t), None, None, []);
    assert Insert(kid, p, |segs| + 1, h, validators) == (kid.(handler := Some(h)), Ok(()));
    assert Insert(Blank, p, |segs|, h, validators) == (Blank.(child := Some(kid.(handler := Some(h)))), Ok(()));
  }

  /** The segments of a literal run then "$x". */
  lemma RunParamSegments(segs: seq<string>, x: string)
    requires PlainSegments(segs) && '/' !in x
    ensures Segments(Join(segs, '/') + "/$" + x) == segs + ["$" + x]
  {
    var p := segs + ["$" + x];
    assert p[..|segs|] == segs && p[|segs|..] == ["$" + x];
    assert forall j :: 0 <= j < |p| ==> '/' !in p[j];
    Util.JoinSnoc(segs, "$" + x);
    SplitJoin(p, '/');
    assert Join(segs, '/') + "/" + ("$" + x) == Join(segs, '/') + "/$" + x;
    JoinHasSegment(p);
  }

  /** Add of a literal run then "$x" for a new method registers the coalesced node and succeeds. */
  lemma AddRunParam(routes: seq<(string, Route)>, validators: map<string, Check>, m: string, segs: seq<string>, x: string, h: Handler)
    requires Find(routes, ToUpper(m)).None? && PlainSegments(segs) && '/' !in x
    ensures var root := RunThenParam(Join(segs, '/'), x, ValidatorFor(validators, "$" + x), h);
      var r := AddSpec(routes, validators, m, Join(segs, '/') + "/$" + x, h);
      r == (routes + [(ToUpper(m), root)], Ok(())) && Find(r.0, ToUpper(m)) == Some(root)
  {
    var root := RunThenParam(Join(segs, '/'), x, ValidatorFor(validators, "$" + x), h);
    RunParamSegments(segs, x);
    InsertRunParam(segs, x, h, validators);
    PutNew(routes, ToUpper(m), root);
  }

  /** Below the coalesced node of a one-segment run, the parameter takes the next segment if its check accepts it. */
  lemma RunParamWalk(lit: string, x: string, check: Check, h: Handler, v: string)
    requires PlainSegments([lit]) && '/' !in v
    ensures var got := Walk(RunThenParam(lit, x, check, h), lit + "/" + v, []);
      && (Accepts(check, v) == Ok(true) ==> got == Ok((h, [Param(x, v)])))
      && (Accepts(check, v) == Ok(false) ==> got == Fail(NotFound))
  {
    var root := RunThenParam(lit, x, check, h);
    assert [lit][0] == lit && '/' !in lit && root.child.None?;
    assert Find(root.children, lit + "/" + v).None? by {
      assert |lit + "/" + v| > |lit|;
    }
    FindUnique(root.children, 0);
    LiteralSegment(root, lit, v, []);
    var node := root.children[0].1;
    assert node.children == [];
    LastSegment(node, v, []);
    assert [] + [Param(x, v)] == [Param(x, v)];
  }

  /**
   * Round trip for a one-segment literal then a parameter: after Add of
   * "lit/$x" for a new method, Get of "/lit/v" captures x = v exactly when
   * the validator registered for "$x" accepts v.
   */
  lemma AddThenGetParam(routes: seq<(string, Route)>, validators: map<string, Check>, m: string, lit: string, x: string, v: string, h: Handler)
    requires Find(routes, ToUpper(m)).None? && PlainSegments([lit]) && '/' !in x && '/' !in v
    ensures var r := AddSpec(routes, validators, m, lit + "/$" + x, h);
      var got := Resolve(r.0, ToUpper(m), "/" + lit + "/" + v);
      && r.1 == Ok(())
      && (Accepts(ValidatorFor(validators, "$" + x), v) == Ok(true) ==> got == Ok((h, [Param(x, v)])))
      && (Accepts(ValidatorFor(validators, "$" + x), v) == Ok(false) ==> got == Fail(NotFound))
  {
    var check := ValidatorFor(validators, "$" + x);
    var root := RunThenParam(lit, x, check, h);
    var r := AddSpec(routes, validators, m, lit + "/$" + x, h);
    assert r.1 == Ok(()) && Find(r.0, ToUpper(m)) == Some(root) by {
      assert Join([lit], '/') == lit;
      AddRunParam(routes, validators, m, [lit], x, h);
    }
    var path := "/" + lit + "/" + v;
    assert Resolve(r.0, ToUpper(m), path) == Walk(root, lit + "/" + v, []) by {
      assert path[1..] == lit + "/" + v;
      ResolveWalk(r.0, ToUpper(m), path);
    }
    RunParamWalk(lit, x, check, h, v);
  }

  /**
   * Coalesced keys are only partly reachable: after Add of a run of two or
   * more literal segments then "$x" for a new method, Get of the run followed
   * by any value finds nothing, because the run is one key and Get looks
   * single segments up.
   */
  lemma AddCoalescedUnreachable(routes: seq<(string, Route)>, validators: map<string, Check>, m: string, segs: seq<string>, x: string, v: string, h: Handler)
    requires Find(routes, ToUpper(m)).None? && PlainSegments(segs) && |segs| >= 2 && '/' !in x && '/' !in v
    ensures var r := AddSpec(routes, validators, m, Join(segs, '/') + "/$" + x, h);
      && r.1 == Ok(())
      && Resolve(r.0, ToUpper(m), "/" + Join(segs + [v], '/')) == Fail(NotFound)
  {
    var run := Join(segs, '/');
    var root := RunThenParam(run, x, ValidatorFor(validators, "$" + x), h);
    AddRunParam(routes, validators, m, segs, x, h);
    var r := AddSpec(routes, validators, m, run + "/$" + x, h);
    // The request path: the first segment, then the rest of the run and v.
    var tail := Join(segs[1..] + [v], '/');
    var path := "/" + Join(segs + [v], '/');
    assert path[1..] == segs[0] + "/" + tail by {
      assert segs + [v] == [segs[0]] + (segs[1..] + [v]);
      JoinCons(segs[0], segs[1..] + [v]);
    }
    ResolveWalk(r.0, ToUpper(m), path);
    assert segs[0] + "/" + tail == run + "/" + v && |run| > |segs[0]| by {
      JoinHasSegment(segs);
      JoinCons(segs[0], segs[1..]);
      assert [segs[0]] + segs[1..] == segs;
      Util.JoinSnoc(segs, v);
    }
    assert Find(root.children, segs[0] + "/" + tail).None?;
    assert Find(root.children, segs[0]).None?;
    LiteralSegment(root, segs[0], tail, []);
  }

  /** strings.Join on a first segment and at least one more. */
  lemma JoinCons(k: string, keys: seq<string>)
    requires |keys| >= 1
    ensures Join([k] + keys, '/') == k + "/" + Join(keys, '/')
  {
    assert ([k] + keys)[1..] == keys;
  }

  // ----- How any Add ends, and where it puts the handler -----

  /** j is the first empty segment of p at or after segment i. */
  predicate FirstEmpty(p: seq<string>, i: nat, j: int)
  {
    i <= j < |p| && p[j] == "" && forall k :: i <= k < j ==> p[k] != ""
  }

  /**
   * How a walk of Add from segment i may end with outcome out: Ok exactly
   * when no segment from i on is empty; otherwise it is decided by the first
   * empty segment. The loop's own check reports the invalid path when the
   * walk stands on it, which is at i or right after a parameter segment;
   * inside a literal run staticPath reads its first byte and panics.
   */
  ghost predicate EndsAs(p: seq<string>, i: nat, out: Outcome<()>)
  {
    && (out == Ok(()) <==> forall k :: i <= k < |p| ==> p[k] != "")
    && forall j :: FirstEmpty(p, i, j) ==>
         out == if j == i || p[j - 1][0] == '$' then Fail(ErrInvalidPath) else Panic(IndexOutOfRange)
  }

  /** The walk of Add from any node at segment i ends as EndsAs says. */
  lemma {:induction false} InsertOutcome(c: Route, p: seq<string>, i: nat, h: Handler, validators: map<string, Check>)
    requires i <= |p|
    ensures EndsAs(p, i, Insert(c, p, i, h, validators).1)
    decreases |p| - i, 1
  {
    if i < |p| && p[i] != "" {
      if p[i][0] == '$' {
        ParamOutcome(c, p, i, h, validators);
      } else if Util.LiteralRun(p[i..]).Panic? {
        InsertPanic(c, p, i, h, validators);
        EndsInRun(p, i);
      } else {
        var (v, n) := Util.JoinedRun(Util.LiteralRun(p[i..])).value;
        RunOutcome(c, p, i, h, validators, v, n);
      }
    }
  }

  /** InsertOutcome at a parameter segment: the walk goes on from the parameter child at i + 1. */
  lemma {:induction false} ParamOutcome(c: Route, p: seq<string>, i: nat, h: Handler, validators: map<string, Check>)
    requires i < |p| && p[i] != "" && p[i][0] == '$'
    ensures EndsAs(p, i, Insert(c, p, i, h, validators).1)
    decreases |p| - i, 0
  {
    var c1 := Adopt(c, p[i][1..], ValidatorFor(validators, p[i]));
    ParamTurn([], c, p, i, h, validators);
    InsertOutcome(c1.child.value, p, i + 1, h, validators);
    EndsAfterParam(p, i, Insert(c1.child.value, p, i + 1, h, validators).1);
  }

  /** InsertOutcome at a literal run that staticPath reads through: the walk goes on below the run's key. */
  lemma {:induction false} RunOutcome(c: Route, p: seq<string>, i: nat, h: Handler, validators: map<string, Check>, v: string, n: int)
    requires i < |p| && p[i] != "" && p[i][0] != '$'
    requires Util.JoinedRun(Util.LiteralRun(p[i..])) == Ok((v, n))
    ensures EndsAs(p, i, Insert(c, p, i, h, validators).1)
    decreases |p| - i, 0
  {
    RunBounds(p, i, v, n);
    InsertLiteral(c, p, i, h, validators, v, n);
    var kid := Find(c.children, v).GetOr(Blank);
    InsertOutcome(kid, p, i + n + 1, h, validators);
    EndsAfterRun(p, i, n, Insert(kid, p, i + n + 1, h, validators).1);
  }

  /** A parameter segment at i passes the ending of the walk from i + 1 back to i. */
  lemma EndsAfterParam(p: seq<string>, i: nat, out: Outcome<()>)
    requires i < |p| && p[i] != "" && p[i][0] == '$'
    requires EndsAs(p, i + 1, out)
    ensures EndsAs(p, i, out)
  {
    assert forall j :: FirstEmpty(p, i, j) ==> FirstEmpty(p, i + 1, j);
  }

  /** A literal run of n + 1 segments at i passes the ending of the walk after it back to i. */
  lemma EndsAfterRun(p: seq<string>, i: nat, n: int, out: Outcome<()>)
    requires i < |p| && p[i] != "" && p[i][0] != '$'
    requires Util.LiteralRun(p[i..]).Ok? && |Util.LiteralRun(p[i..]).value| == n + 1
    requires 0 <= n && i + n + 1 <= |p|
    requires EndsAs(p, i + n + 1, out)
    ensures EndsAs(p, i, out)
  {
    var run := Util.LiteralRun(p[i..]);
    Util.LiteralRunShape(p[i..]);
    forall k | i <= k < i + n + 1
      ensures p[k] != ""
    {
      assert p[i..][k - i] == run.value[k - i];
    }
    assert i + n + 1 < |p| ==> p[i + n + 1] != "" by {
      if i + n + 1 < |p| { assert p[i..][n + 1] == p[i + n + 1]; }
    }
    assert forall j :: FirstEmpty(p, i, j) ==> FirstEmpty(p, i + n + 1, j) && j != i + n + 1;
  }

  /** A literal run at i that reaches an empty segment ends the walk in the index panic. */
  lemma EndsInRun(p: seq<string>, i: nat)
    requires i < |p| && p[i] != "" && p[i][0] != '$'
    requires Util.LiteralRun(p[i..]).Panic?
    ensures EndsAs(p, i, Panic(IndexOutOfRange))
  {
    assert p[i..][0] == p[i];
    Util.LiteralRunPanics(p[i..]);
    var jj :| 0 <= jj < |p[i..]| && p[i..][jj] == "" && forall k :: 0 <= k < jj ==> p[i..][k] != "" && p[i..][k][0] != '$';
    assert p[i + jj] == "";
    forall j | FirstEmpty(p, i, j)
      ensures j == i + jj && p[j - 1][0] != '$'
    {
      assert p[i..][j - i] == p[j];
      assert p[i..][jj - 1] == p[i + jj - 1];
    }
  }

  /**
   * How Add ends for a method with no root yet: Ok exactly when the
   * pattern has no empty segment, else the invalid-path error or the
   * index panic, decided by the first empty segment as in InsertOutcome.
   */
  lemma AddNewOutcome(routes: seq<(string, Route)>, validators: map<string, Check>, m: string, u: string, h: Handler)
    requires Find(routes, ToUpper(m)).None?
    ensures var p := Segments(u);
      var out := AddSpec(routes, validators, m, u, h).1;
      && (out == Ok(()) <==> "" !in p)
      && forall j :: FirstEmpty(p, 0, j) ==>
           out == if j == 0 || p[j - 1][0] == '$' then Fail(ErrInvalidPath) else Panic(IndexOutOfRange)
  {
    var p := Segments(u);
    InsertOutcome(Blank, p, 0, h, validators);
    assert EndsAs(p, 0, AddSpec(routes, validators, m, u, h).1);
    assert ("" !in p) <==> forall k :: 0 <= k < |p| ==> p[k] != "";
  }

  /**
   * The node c lays out segments i.. of p as Add builds them: a parameter
   * segment "$name" is the parameter child, named name and checked by the
   * validator registered for "$name"; each maximal literal run is the
   * literal child under the run's segments joined by '/'; the node at the
   * end holds handler h.
   */
  predicate Placed(c: Route, p: seq<string>, i: nat, h: Handler, validators: map<string, Check>)
    requires i <= |p|
    decreases |p| - i
  {
    if i == |p| then c.handler == Some(h)
    else if p[i] == "" then false
    else if p[i][0] == '$' then
      && c.child.Some?
      && c.child.value.param == p[i][1..]
      && c.child.value.check == ValidatorFor(validators, p[i])
      && Placed(c.child.value, p, i + 1, h, validators)
    else
      match Util.JoinedRun(Util.LiteralRun(p[i..]))
      case Ok((v, n)) =>
        && 0 <= n && i + n + 1 <= |p|
        && Find(c.children, v).Some?
        && Placed(Find(c.children, v).value, p, i + n + 1, h, validators)
      case _ => false
  }

  /** A walk of Add from a node with no children that succeeds lays the rest of the pattern out below it. */
  lemma {:induction false} InsertPlaced(c: Route, p: seq<string>, i: nat, h: Handler, validators: map<string, Check>)
    requires i <= |p| && c.child.None? && c.children == []
    requires Insert(c, p, i, h, validators).1 == Ok(())
    ensures Placed(Insert(c, p, i, h, validators).0, p, i, h, validators)
    decreases |p| - i
  {
    if i < |p| {
      if p[i][0] == '$' {
        var kid := Route(p[i][1..], ValidatorFor(validators, p[i]), None, None, []);
        InsertPlaced(kid, p, i + 1, h, validators);
      } else {
        var (v, n) := Util.JoinedRun(Util.LiteralRun(p[i..])).value;
        RunBounds(p, i, v, n);
        InsertLiteral(c, p, i, h, validators, v, n);
        InsertPlaced(Blank, p, i + n + 1, h, validators);
      }
    }
  }

  /**
   * Add for a method with no root and a pattern with no empty segment
   * succeeds, and the method's new root lays the whole pattern out: the
   * coalesced literal keys and the parameter children lead to handler h.
   */
  lemma AddPlaced(routes: seq<(string, Route)>, validators: map<string, Check>, m: string, u: string, h: Handler)
    requires Find(routes, ToUpper(m)).None? && "" !in Segments(u)
    ensures var r := AddSpec(routes, validators, m, u, h);
      && r.1 == Ok(())
      && Find(r.0, ToUpper(m)).Some?
      && Placed(Find(r.0, ToUpper(m)).value, Segments(u), 0, h, validators)
  {
    var p := Segments(u);
    AddNewOutcome(routes, validators, m, u, h);
    InsertPlaced(Blank, p, 0, h, validators);
    PutNew(routes, ToUpper(m), Insert(Blank, p, 0, h, validators).0);
  }
}
