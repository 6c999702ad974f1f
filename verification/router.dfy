/**
 * The runtime trie of router/router.go. A `Route` node is a value: its
 * parameter name and check, its handler, at most one parameter child and the
 * literal children keyed by (possibly coalesced) path text. `Router` holds the
 * method table and the validators and is the object Get, Add and AddValidator
 * act on.
 */
module Router {
  import opened Optional
  import opened Entries
  import opened GoStrings
  import opened Errors
  import opened Params
  import Util
  import Website

  /** An opaque handler id; Go's nil HandlerFunc is `None`. */
  type Handler = nat

  /** The validators the repository defines, by name; `Unchecked` is Go's nil Check. */
  datatype Check = Unchecked | YearCheck | MonthCheck | DayCheck | NumberCheck

  /** Whether the check accepts segment s; IsYear can panic, the others cannot. */
  function Accepts(c: Check, s: string): (r: Outcome<bool>)
    ensures !r.Fail?
  {
    match c
    case Unchecked => Ok(true)
    case YearCheck => Util.IsYear(s)
    case MonthCheck => Ok(Util.IsMonth(s))
    case DayCheck => Ok(Util.IsDay(s))
    case NumberCheck => Ok(Website.ValidateNumber(s))
  }

  /** Go's `Route`: Param, Check, HandlerFunc, Child and Children. */
  datatype Route = Route(
    param: string,
    check: Check,
    handler: Option<Handler>,
    child: Option<Route>,
    children: seq<(string, Route)>)

  /** `&Route{}`. */
  const Blank: Route := Route("", Unchecked, None, None, [])

  /** The lookup result Get returns: the handler and the captured parameters. */
  type Match = (Handler, Params)

  const NotFound: Err := Routing(ErrRouteNotFound)

  /** Every literal-children map in the tree has unique keys, as a Go map does. */
  predicate Tidy(r: Route)
  {
    && UniqueKeys(r.children)
    && (r.child.Some? ==> Tidy(r.child.value))
    && forall j :: 0 <= j < |r.children| ==> Tidy(r.children[j].1)
  }

  // ----- Get -----

  /** The end of the walk (router.go:98-102): the node must carry a handler. */
  function Finish(route: Route, p: Params): Outcome<Match>
  {
    if route.handler.None? then Fail(NotFound) else Ok((route.handler.value, p))
  }

  /**
   * The walk of Get from node `route` over the remaining path u with the
   * parameters p captured so far: one iteration of the loop per call. Its
   * only error is ErrRouteNotFound.
   */
  function Walk(route: Route, u: string, p: Params): (r: Outcome<Match>)
    ensures r.Fail? ==> r.err == NotFound
    decreases |u|
  {
    match Find(route.children, u)
    case Some(v) => Finish(v, p)
    case None =>
      var i := IndexByte(u, '/');
      var s := if i == -1 then u else u[..i];
      var rest := if i == -1 then u else u[i + 1..];
      if route.child.Some? then
        var c := route.child.value;
        match Accepts(c.check, s)
        case Panic(f) => Panic(f)
        case Fail(e) => Fail(e)
        case Ok(ok) =>
          if !ok then Fail(NotFound)
          else if i == -1 then Finish(c, p + [Param(c.param, s)])
          else Walk(c, rest, p + [Param(c.param, s)])
      else
        match Find(route.children, s)
        case None => Fail(NotFound)
        case Some(v) =>
          // With no '/' left, s is the whole remaining path, looked up just above.
          if i == -1 then assert false; Fail(NotFound)
          else Walk(v, rest, p)
  }

  /**
   * Get on method table `routes`: an unknown method is refused, "" and "/"
   * only reach the literal child "/", and any other path loses one leading
   * '/' and is walked from the method's root.
   */
  function Resolve(routes: seq<(string, Route)>, verb: string, path: string): (r: Outcome<Match>)
    ensures Find(routes, verb).None? ==> r == Fail(Routing(ErrInvalidMethod))
    ensures Find(routes, verb).Some? && (path == "" || path == "/") ==>
      var slash := Find(Find(routes, verb).value.children, "/");
      r == if slash.Some? && slash.value.handler.Some? then Ok((slash.value.handler.value, [])) else Fail(NotFound)
  {
    match Find(routes, verb)
    case None => Fail(Routing(ErrInvalidMethod))
    case Some(root) =>
      if path == "" || path == "/" then
        match Find(root.children, "/")
        case Some(v) => if v.handler.Some? then Ok((v.handler.value, [])) else Fail(NotFound)
        case None => Fail(NotFound)
      else
        Walk(root, if path[0] == '/' then path[1..] else path, [])
  }

  // ----- Add -----

  /** The validator registered under the full segment ("$name"), or none. */
  function ValidatorFor(validators: map<string, Check>, segment: string): Check
  {
    if segment in validators then validators[segment] else Unchecked
  }

  /** The segments Add walks: "/" alone is one segment, anything else is split at '/'. */
  function Segments(u: string): (p: seq<string>)
    ensures |p| >= 1
  {
    if u != "/" then Split(u, '/') else ["/"]
  }

  /**
   * The cursor walk of Add from node c at segment i (router.go:127-158), on
   * values: the new node and how the walk ended. A failure or panic part way
   * keeps the nodes already created, as the in-place walk does.
   */
  function Insert(c: Route, p: seq<string>, i: nat, h: Handler, validators: map<string, Check>): (r: (Route, Outcome<()>))
    requires i <= |p|
    ensures r.0.param == c.param && r.0.check == c.check
    ensures !r.1.Ok? ==> r.0.handler == c.handler
    decreases |p| - i
  {
    if i == |p| then (c.(handler := Some(h)), Ok(()))
    else if p[i] == "" then (c, Fail(ErrInvalidPath))
    else if p[i][0] == '$' then
      var name := p[i][1..];
      var kid := if c.child.Some? && c.child.value.param == name then c.child.value
                 else Route(name, ValidatorFor(validators, p[i]), None, None, []);
      var r := Insert(kid, p, i + 1, h, validators);
      (c.(child := Some(r.0)), r.1)
    else
      match Util.JoinedRun(Util.LiteralRun(p[i..]))
      case Panic(f) => (c, Panic(f))
      case Fail(e) => (c, Fail(e))
      case Ok((v, n)) =>
        var kid := Find(c.children, v).GetOr(Blank);
        var r := Insert(kid, p, i + n + 1, h, validators);
        (c.(children := Put(c.children, v, r.0)), r.1)
  }

  /**
   * How Add fails for a method that already has a root: the cursor stays nil,
   * so the first segment is checked for emptiness and then nil is dereferenced
   * (after staticPath, which may panic first).
   */
  function ExistingMethodFailure(p: seq<string>): (r: Outcome<()>)
    requires |p| >= 1
    ensures !r.Ok?
    ensures r.Fail? <==> p[0] == ""
    ensures p[0] != "" ==>
      (r == Panic(IndexOutOfRange) <==> exists j :: 0 < j < |p| && p[j] == "" && forall k :: 0 <= k < j ==> p[k] != "" && p[k][0] != '$')
    ensures p[0] != "" && r != Panic(IndexOutOfRange) ==> r == Panic(NilDereference)
  {
    Util.LiteralRunPanics(p);
    if p[0] == "" then Fail(ErrInvalidPath)
    else if p[0][0] == '$' then Panic(NilDereference)
    else match Util.JoinedRun(Util.LiteralRun(p))
      case Panic(f) => Panic(f)
      case _ => Panic(NilDereference)
  }

  /**
   * Add on method table `routes`: the new method table and the result. A
   * method that already has a root is never extended; a new one is stored
   * before the walk, so it stays even when the walk fails.
   */
  function AddSpec(routes: seq<(string, Route)>, validators: map<string, Check>, m: string, u: string, h: Handler): (r: (seq<(string, Route)>, Outcome<()>))
    ensures Find(routes, ToUpper(m)).Some? ==> r.0 == routes && !r.1.Ok?
    ensures Find(routes, ToUpper(m)).None? ==> Find(r.0, ToUpper(m)).Some?
  {
    var verb := ToUpper(m);
    var p := Segments(u);
    match Find(routes, verb)
    case Some(_) => (routes, ExistingMethodFailure(p))
    case None =>
      var (root, out) := Insert(Blank, p, 0, h, validators);
      PutNew(routes, verb, root);
      (routes + [(verb, root)], out)
  }

  /** The place the cursor left: under the parameter child, or under a literal key. */
  datatype Frame = AtChild(parent: Route) | AtKey(parent: Route, key: string)

  /** The parent of a frame with c put back in the place the cursor left. */
  function Attach(f: Frame, c: Route): Route
  {
    match f
    case AtChild(pa) => pa.(child := Some(c))
    case AtKey(pa, k) => pa.(children := Put(pa.children, k, c))
  }

  /** Rebuilds the root from the frames of the walk (innermost last) and the node under the cursor. */
  function Plug(frames: seq<Frame>, c: Route): Route
    decreases |frames|
  {
    if frames == [] then c
    else Plug(frames[..|frames| - 1], Attach(frames[|frames| - 1], c))
  }

  lemma PlugPush(frames: seq<Frame>, f: Frame, c: Route)
    ensures Plug(frames + [f], c) == Plug(frames, Attach(f, c))
  {
    assert (frames + [f])[..|frames|] == frames;
  }

  /** The node with a parameter child for `name`: the existing one if its Param matches, else a fresh one. */
  function Adopt(c: Route, name: string, check: Check): (r: Route)
    ensures r.child.Some? && r.child.value.param == name
    ensures c.child.Some? && c.child.value.param == name ==> r == c
    ensures c.child.None? || c.child.value.param != name ==>
      r == c.(child := Some(Route(name, check, None, None, [])))
  {
    if c.child.None? || c.child.value.param != name then c.(child := Some(Route(name, check, None, None, [])))
    else c
  }

  /** The node with a literal child under key v: the existing one, else a fresh blank node. */
  function Open(c: Route, v: string): (r: Route)
    ensures Find(r.children, v).Some?
  {
    if Find(c.children, v).None? then c.(children := Put(c.children, v, Blank)) else c
  }

  /** Where the walk ends when resumed at node c and segment i, under the given frames. */
  function Resume(frames: seq<Frame>, c: Route, p: seq<string>, i: nat, h: Handler, validators: map<string, Check>): (Route, Outcome<()>)
    requires i <= |p|
  {
    var r := Insert(c, p, i, h, validators);
    (Plug(frames, r.0), r.1)
  }

  /** One parameter turn of the walk, as the loop takes it. */
  lemma ParamTurn(frames: seq<Frame>, c: Route, p: seq<string>, i: nat, h: Handler, validators: map<string, Check>)
    requires i < |p| && p[i] != "" && p[i][0] == '$'
    ensures var c1 := Adopt(c, p[i][1..], ValidatorFor(validators, p[i]));
      Resume(frames, c, p, i, h, validators) == Resume(frames + [AtChild(c1)], c1.child.value, p, i + 1, h, validators)
  {
    var c1 := Adopt(c, p[i][1..], ValidatorFor(validators, p[i]));
    PlugPush(frames, AtChild(c1), Insert(c1.child.value, p, i + 1, h, validators).0);
  }

  /** One literal turn of the walk: the run of n + 1 segments spelled v. */
  lemma LiteralTurn(frames: seq<Frame>, c: Route, p: seq<string>, i: nat, h: Handler, validators: map<string, Check>, v: string, n: int)
    requires i < |p| && p[i] != "" && p[i][0] != '$'
    requires Util.JoinedRun(Util.LiteralRun(p[i..])) == Ok((v, n))
    ensures 0 <= n && i + n + 1 <= |p|
    ensures var c1 := Open(c, v);
      Resume(frames, c, p, i, h, validators) == Resume(frames + [AtKey(c1, v)], Find(c1.children, v).value, p, i + n + 1, h, validators)
  {
    RunBounds(p, i, v, n);
    var c1 := Open(c, v);
    var kid := Find(c.children, v).GetOr(Blank);
    var r := Insert(kid, p, i + n + 1, h, validators);
    assert Insert(c, p, i, h, validators) == (c.(children := Put(c.children, v, r.0)), r.1) by {
      InsertLiteral(c, p, i, h, validators, v, n);
    }
    assert Find(c1.children, v).value == kid && Attach(AtKey(c1, v), r.0) == c.(children := Put(c.children, v, r.0)) by {
      OpenPut(c, v, r.0);
    }
    PlugPush(frames, AtKey(c1, v), r.0);
  }

  /** A literal run is at least one segment long and fits in what is left of the pattern. */
  lemma RunBounds(p: seq<string>, i: nat, v: string, n: int)
    requires i < |p| && p[i] != "" && p[i][0] != '$'
    requires Util.JoinedRun(Util.LiteralRun(p[i..])) == Ok((v, n))
    ensures 0 <= n && i + n + 1 <= |p|
  {
    assert p[i..][0] == p[i];
  }

  /** Insert at a literal segment: the run's node, fresh or found, is rebuilt and stored under the run's key. */
  lemma InsertLiteral(c: Route, p: seq<string>, i: nat, h: Handler, validators: map<string, Check>, v: string, n: int)
    requires i < |p| && p[i] != "" && p[i][0] != '$'
    requires Util.JoinedRun(Util.LiteralRun(p[i..])) == Ok((v, n))
    requires 0 <= n && i + n + 1 <= |p|
    ensures var r := Insert(Find(c.children, v).GetOr(Blank), p, i + n + 1, h, validators);
      Insert(c, p, i, h, validators) == (c.(children := Put(c.children, v, r.0)), r.1)
  {
    assert i != |p|;
  }

  /** Insert at a literal segment whose run reads an empty segment panics and leaves the node as it was. */
  lemma InsertPanic(c: Route, p: seq<string>, i: nat, h: Handler, validators: map<string, Check>)
    requires i < |p| && p[i] != "" && p[i][0] != '$'
    requires Util.JoinedRun(Util.LiteralRun(p[i..])).Panic?
    ensures Insert(c, p, i, h, validators) == (c, Panic(Util.JoinedRun(Util.LiteralRun(p[i..])).fault))
  {
  }

  /** Opening key v and then storing x under it stores x in the original node. */
  lemma OpenPut(c: Route, v: string, x: Route)
    ensures Find(Open(c, v).children, v).value == Find(c.children, v).GetOr(Blank)
    ensures Attach(AtKey(Open(c, v), v), x) == c.(children := Put(c.children, v, x))
  {
    if Find(c.children, v).None? {
      PutPut(c.children, v, Blank, x);
    }
  }

  /**
   * The loop of Add over the segments, from a fresh root: the frames record
   * the way down and the root is rebuilt from them on every exit, so a walk
   * that fails keeps the nodes it created.
   */
  method Descend(p: seq<string>, h: Handler, validators: map<string, Check>) returns (root: Route, out: Outcome<()>)
    ensures (root, out) == Insert(Blank, p, 0, h, validators)
  {
    var c := Blank;
    var frames: seq<Frame> := [];
    var i := 0;
    ghost var spec := Insert(Blank, p, 0, h, validators);
    while i < |p|
      invariant 0 <= i <= |p|
      invariant Resume(frames, c, p, i, h, validators) == spec
      decreases |p| - i
    {
      if p[i] == "" {
        return Plug(frames, c), Fail(ErrInvalidPath);
      }
      if p[i][0] == '$' {
        // Parameter
        var c1 := Adopt(c, p[i][1..], ValidatorFor(validators, p[i]));
        ParamTurn(frames, c, p, i, h, validators);
        frames, c, i := frames + [AtChild(c1)], c1.child.value, i + 1;
      } else {
        var run := Util.StaticPath(p[i..]);
        if run.Panic? {
          InsertPanic(c, p, i, h, validators);
          return Plug(frames, c), Panic(run.fault);
        }
        var (v, n) := run.value;
        var c1 := Open(c, v);
        LiteralTurn(frames, c, p, i, h, validators, v, n);
        frames, c, i := frames + [AtKey(c1, v)], Find(c1.children, v).value, i + n + 1;
      }
    }
    c := c.(handler := Some(h));
    return Plug(frames, c), Ok(());
  }

  // ----- Add keeps the tries tidy -----

  /** A node found under a key of a tidy node is tidy. */
  lemma FindTidy(c: Route, v: string)
    requires Tidy(c) && Find(c.children, v).Some?
    ensures Tidy(Find(c.children, v).value)
  {
    FindSome(c.children, v);
    var j :| 0 <= j < |c.children| && c.children[j] == (v, Find(c.children, v).value);
    assert Tidy(c.children[j].1);
  }

  /** The node under a literal key, or the blank one made for it, is tidy in a tidy node. */
  lemma KidTidy(c: Route, v: string)
    requires Tidy(c)
    ensures Tidy(Find(c.children, v).GetOr(Blank))
  {
    if Find(c.children, v).Some? {
      FindTidy(c, v);
    }
  }

  /** Storing a tidy node under a key of a tidy node keeps it tidy. */
  lemma PutTidy(c: Route, v: string, x: Route)
    requires Tidy(c) && Tidy(x)
    ensures Tidy(c.(children := Put(c.children, v, x)))
  {
    PutUnique(c.children, v, x);
    PutMembers(c.children, v, x);
    var es := Put(c.children, v, x);
    forall j | 0 <= j < |es| ensures Tidy(es[j].1) {
      assert es[j] in es;
    }
  }

  /** Plugging into a single frame is attaching to it. */
  lemma PlugOne(f: Frame, x: Route)
    ensures Plug([f], x) == Attach(f, x)
  {
    assert [f][..0] == [];
  }

  /** Add keeps every literal-children map a map: Insert turns a tidy node into a tidy node. */
  lemma {:induction false} InsertTidy(c: Route, p: seq<string>, i: nat, h: Handler, validators: map<string, Check>)
    requires i <= |p| && Tidy(c)
    ensures Tidy(Insert(c, p, i, h, validators).0)
    decreases |p| - i, 1
  {
    if i < |p| && p[i] != "" {
      if p[i][0] == '$' {
        ParamTurnTidy(c, p, i, h, validators);
      } else {
        var run := Util.JoinedRun(Util.LiteralRun(p[i..]));
        if run.Ok? {
          LiteralTurnTidy(c, p, i, h, validators, run.value.0, run.value.1);
        }
      }
    }
  }

  lemma {:induction false} ParamTurnTidy(c: Route, p: seq<string>, i: nat, h: Handler, validators: map<string, Check>)
    requires i < |p| && p[i] != "" && p[i][0] == '$' && Tidy(c)
    ensures Tidy(Insert(c, p, i, h, validators).0)
    decreases |p| - i, 0
  {
    ParamTurn([], c, p, i, h, validators);
    var c1 := Adopt(c, p[i][1..], ValidatorFor(validators, p[i]));
    InsertTidy(c1.child.value, p, i + 1, h, validators);
    PlugOne(AtChild(c1), Insert(c1.child.value, p, i + 1, h, validators).0);
  }

  lemma {:induction false} LiteralTurnTidy(c: Route, p: seq<string>, i: nat, h: Handler, validators: map<string, Check>, v: string, n: int)
    requires i < |p| && p[i] != "" && p[i][0] != '$' && Tidy(c)
    requires Util.JoinedRun(Util.LiteralRun(p[i..])) == Ok((v, n))
    ensures Tidy(Insert(c, p, i, h, validators).0)
    decreases |p| - i, 0
  {
    assert 0 <= n && i + n + 1 <= |p| by {
      RunBounds(p, i, v, n);
    }
    var kid' := Insert(Find(c.children, v).GetOr(Blank), p, i + n + 1, h, validators).0;
    assert Tidy(kid') by {
      var k := KidTidyAfter(c, v, p, i + n + 1, h, validators);
    }
    assert Tidy(c.(children := Put(c.children, v, kid'))) by {
      PutTidy(c, v, kid');
    }
    InsertLiteralTree(c, p, i, h, validators, v, n);
  }

  /** The tree half of InsertLiteral. */
  lemma InsertLiteralTree(c: Route, p: seq<string>, i: nat, h: Handler, validators: map<string, Check>, v: string, n: int)
    requires i < |p| && p[i] != "" && p[i][0] != '$'
    requires Util.JoinedRun(Util.LiteralRun(p[i..])) == Ok((v, n))
    requires 0 <= n && i + n + 1 <= |p|
    ensures Insert(c, p, i, h, validators).0 == c.(children := Put(c.children, v, Insert(Find(c.children, v).GetOr(Blank), p, i + n + 1, h, validators).0))
  {
    InsertLiteral(c, p, i, h, validators, v, n);
  }

  /** The node a literal run continues in, after the rest of the pattern is inserted below it, is tidy. */
  lemma {:induction false} KidTidyAfter(c: Route, v: string, p: seq<string>, j: nat, h: Handler, validators: map<string, Check>) returns (kid': Route)
    requires j <= |p| && Tidy(c)
    ensures kid' == Insert(Find(c.children, v).GetOr(Blank), p, j, h, validators).0 && Tidy(kid')
    decreases |p| - j, 2
  {
    KidTidy(c, v);
    InsertTidy(Find(c.children, v).GetOr(Blank), p, j, h, validators);
    kid' := Insert(Find(c.children, v).GetOr(Blank), p, j, h, validators).0;
  }

  /** The method table stays a map of tidy tries through any Add, failed or not. */
  lemma AddTidy(routes: seq<(string, Route)>, validators: map<string, Check>, m: string, u: string, h: Handler)
    requires UniqueKeys(routes) && forall j :: 0 <= j < |routes| ==> Tidy(routes[j].1)
    ensures var r := AddSpec(routes, validators, m, u, h).0;
      UniqueKeys(r) && forall j :: 0 <= j < |r| ==> Tidy(r[j].1)
  {
    if Find(routes, ToUpper(m)).None? {
      InsertTidy(Blank, Segments(u), 0, h, validators);
      var r := AddSpec(routes, validators, m, u, h).0;
      FindNone(routes, ToUpper(m));
    }
  }

  /** What ServeHTTP does with a Get result: call the handler, write a status, or let a panic through. */
  datatype Reply = Invoke(h: Handler, params: Params) | Status(code: int) | Crash(fault: Fault)

  /** ServeHTTP after Get: a routing error writes its own status, any other error 500. */
  function Serve(res: Outcome<Match>): (reply: Reply)
    ensures reply.Invoke? <==> res.Ok?
    ensures reply.Crash? <==> res.Panic?
    ensures res.Fail? ==> reply.Status? && (reply.code == if res.err.Routing? then res.err.e.StatusCode() else StatusInternalServerError)
  {
    match res
    case Ok((h, p)) => Invoke(h, p)
    case Fail(Routing(e)) => Status(e.StatusCode())
    case Fail(_) => Status(StatusInternalServerError)
    case Panic(f) => Crash(f)
  }

  class Router {
    /** Go's `Routes`: the root node of each method. */
    var routes: seq<(string, Route)>
    /** Go's `Validators`: checks by full parameter segment ("$name"). */
    var validators: map<string, Check>

    /** `&Router{}`. */
    constructor ()
      ensures routes == [] && validators == map[]
      ensures Valid()
    {
      routes := [];
      validators := map[];
    }

    /** A router given as a composite literal, as the generated and hand-written tables are. */
    constructor Literal(rs: seq<(string, Route)>, vs: map<string, Check>)
      requires UniqueKeys(rs) && forall j :: 0 <= j < |rs| ==> Tidy(rs[j].1)
      ensures routes == rs && validators == vs
      ensures Valid()
    {
      routes := rs;
      validators := vs;
    }

    /** The method table is a Go map and every node's literal children are too. */
    ghost predicate Valid()
      reads this
    {
      UniqueKeys(routes) && forall j :: 0 <= j < |routes| ==> Tidy(routes[j].1)
    }

    /**
     * Get: the handler and parameters for a request, or the routing error.
     * Each turn of the loop returns, breaks, or shortens u.
     */
    method Get(verb: string, path: string) returns (res: Outcome<Match>)
      ensures res == Resolve(routes, verb, path)
    {
      var found := Find(routes, verb);
      if found.None? {
        return Fail(Routing(ErrInvalidMethod));
      }
      var route := found.value;
      var u := path;
      if u == "" || u == "/" {
        var slash := Find(route.children, "/");
        if slash.Some? && slash.value.handler.Some? {
          return Ok((slash.value.handler.value, []));
        }
        return Fail(NotFound);
      } else if u[0] == '/' {
        u := u[1..];
      }
      var p: Params := [];
      while true
        invariant Walk(route, u, p) == Resolve(routes, verb, path)
        decreases |u|
      {
        var whole := Find(route.children, u);
        if whole.Some? {
          route := whole.value;
          break;
        }
        var s := u;
        var i := IndexByte(u, '/');
        if i != -1 {
          s := u[..i];
          u := u[i + 1..];
        }
        if route.child.Some? {
          // Capture parameter
          route := route.child.value;
          if route.check != Unchecked {
            var ok := Accepts(route.check, s);
            if ok.Panic? {
              return Panic(ok.fault);
            }
            if !ok.value {
              return Fail(NotFound);
            }
          }
          p := p + [Param(route.param, s)];
          if i == -1 {
            break;
          }
        } else {
          // Static
          var next := Find(route.children, s);
          if next.None? {
            return Fail(NotFound);
          }
          if i == -1 {
            // s is the whole remaining path, which the lookup at the top of this turn missed
            assert false;
          }
          route := next.value;
        }
      }
      if route.handler.None? {
        return Fail(NotFound);
      }
      return Ok((route.handler.value, p));
    }

    /**
     * Add: registers pattern u for method m (upper-cased) with handler h. A
     * new method's root is stored before the walk, as in Go, and replaced by
     * the walked root whatever the walk's outcome.
     */
    method Add(m: string, u: string, h: Handler) returns (res: Outcome<()>)
      requires Valid()
      modifies this
      ensures (routes, res) == AddSpec(old(routes), old(validators), m, u, h)
      ensures validators == old(validators)
      ensures Valid()
    {
      AddTidy(routes, validators, m, u, h);
      var verb := ToUpper(m);
      var p := Segments(u);
      if Find(routes, verb).Some? {
        // The cursor c is nil: the first turn of the loop decides the outcome.
        if p[0] == "" {
          return Fail(ErrInvalidPath);
        }
        if p[0][0] == '$' {
          return Panic(NilDereference);
        }
        var run := Util.StaticPath(p);
        if run.Panic? {
          return Panic(run.fault);
        }
        return Panic(NilDereference);
      }
      routes := Put(routes, verb, Blank);
      var root, out := Descend(p, h, validators);
      PutPut(old(routes), verb, Blank, root);
      PutNew(old(routes), verb, root);
      routes := Put(routes, verb, root);
      return out;
    }

    /** ServeHTTP: looks the request up and replies. */
    method ServeHTTP(verb: string, path: string) returns (reply: Reply)
      ensures reply == Serve(Resolve(routes, verb, path))
    {
      var res := Get(verb, path);
      match res
      case Ok((h, p)) => reply := Invoke(h, p);
      case Fail(Routing(e)) => reply := Status(e.code);
      case Fail(_) => reply := Status(StatusInternalServerError);
      case Panic(f) => reply := Crash(f);
    }

    /** AddValidator: registers (or replaces) the check for parameter segment n. */
    method AddValidator(n: string, f: Check)
      requires Valid()
      modifies this
      ensures validators == old(validators)[n := f]
      ensures routes == old(routes)
      ensures Valid()
    {
      validators := validators[n := f];
    }
  }
}
