/**
 * The offline generator of routify.go: a second trie builder, fed from the
 * route table of a YAML file, and the writer that prints its trie as the
 * Go source of a `router.Routes` literal. Each Go map of nodes is a
 * sequence of (key, node) pairs with unique keys, in the order one `range`
 * over it visits them.
 */
module Routify {
  import opened Optional
  import opened Errors
  import opened Entries
  import opened GoStrings
  import Router

  // ----- The generator's trie -----

  /** Go's `*route`: literal children in `table`, bound parameters in `funcs`, and the names of a check and a handler. */
  datatype Node = Node(table: seq<(string, Node)>, funcs: seq<(string, Node)>, check: string, handle: string)

  /** `&route{table: routemap{}, funcs: routemap{}}`. */
  const Fresh: Node := Node([], [], "", "")

  /** `m[k]` on a map[string]string: the value, or "" when k is absent. */
  function Lookup(m: map<string, string>, k: string): (v: string)
    ensures k !in m ==> v == ""
    ensures k in m ==> v == m[k]
  {
    if k in m then m[k] else ""
  }

  /** One of the two maps of a node. */
  function Slot(c: Node, inFuncs: bool): seq<(string, Node)>
  {
    if inFuncs then c.funcs else c.table
  }

  /** The place the cursor left: a parent, which of its maps, and the key. */
  datatype Frame = Frame(parent: Node, inFuncs: bool, key: string)

  /**
   * Where segment seg goes below c: a "$name" segment whose name has a
   * PARAMS binding goes into funcs under "name"; any other segment, a
   * "$name" without a binding included, goes into table as written.
   */
  function Turn(c: Node, seg: string, params: map<string, string>): (f: Frame)
    requires seg != ""
    ensures f.parent == c
    ensures f.inFuncs <==> seg[0] == '$' && seg[1..] in params
    ensures f.key == if f.inFuncs then seg[1..] else seg
  {
    var bound := seg[0] == '$' && seg[1..] in params;
    Frame(c, bound, if bound then seg[1..] else seg)
  }

  /** The node the cursor moves to: the existing child or a fresh one, whose check a '$' segment sets to `params[key]`. */
  function Enter(f: Frame, isParam: bool, params: map<string, string>): Node
  {
    var kid := Find(Slot(f.parent, f.inFuncs), f.key).GetOr(Fresh);
    if isParam then kid.(check := Lookup(params, f.key)) else kid
  }

  /** The parent of a frame with x stored under its key, in the map the cursor left. */
  function Attach(f: Frame, x: Node): Node
  {
    if f.inFuncs then f.parent.(funcs := Put(f.parent.funcs, f.key, x))
    else f.parent.(table := Put(f.parent.table, f.key, x))
  }

  /**
   * The loop of add from node c at segment i (routify.go:105-135), on
   * values: the new node and the error. One node per segment, existing
   * nodes reused; the node of the last segment gets the handle. An empty
   * segment stops the walk and keeps the nodes already created.
   */
  function Insert(c: Node, p: seq<string>, i: nat, params: map<string, string>, handle: string): (r: (Node, Option<Err>))
    requires i <= |p|
    ensures r.1.None? || r.1 == Some(ErrInvalidPath)
    decreases |p| - i
  {
    if i == |p| then (c.(handle := handle), None)
    else if p[i] == "" then (c, Some(ErrInvalidPath))
    else
      var f := Turn(c, p[i], params);
      var r := Insert(Enter(f, p[i][0] == '$', params), p, i + 1, params, handle);
      (Attach(f, r.0), r.1)
  }

  /**
   * add on the method table: the method's root, made on demand and stored
   * before the walk, with the path inserted below it.
   */
  function AddSpec(routes: seq<(string, Node)>, params: map<string, string>, verb: string, path: string, handle: string): (r: (seq<(string, Node)>, Option<Err>))
    ensures Find(r.0, verb).Some?
  {
    var x := Insert(Find(routes, verb).GetOr(Fresh), Router.Segments(path), 0, params, handle);
    (Put(routes, verb, x.0), x.1)
  }

  /** Rebuilds the root from the frames of the walk (innermost last) and the node under the cursor. */
  function Plug(frames: seq<Frame>, c: Node): Node
    decreases |frames|
  {
    if frames == [] then c
    else Plug(frames[..|frames| - 1], Attach(frames[|frames| - 1], c))
  }

  /** Where the walk ends when resumed at node c and segment i, under the given frames. */
  function Resume(frames: seq<Frame>, c: Node, p: seq<string>, i: nat, params: map<string, string>, handle: string): (Node, Option<Err>)
    requires i <= |p|
  {
    var r := Insert(c, p, i, params, handle);
    (Plug(frames, r.0), r.1)
  }

  /** One turn of the walk, as the loop of add takes it. */
  lemma Step(frames: seq<Frame>, c: Node, p: seq<string>, i: nat, params: map<string, string>, handle: string)
    requires i < |p| && p[i] != ""
    ensures var f := Turn(c, p[i], params);
      Resume(frames, c, p, i, params, handle) == Resume(frames + [f], Enter(f, p[i][0] == '$', params), p, i + 1, params, handle)
  {
    var f := Turn(c, p[i], params);
    var r := Insert(Enter(f, p[i][0] == '$', params), p, i + 1, params, handle);
    assert (frames + [f])[..|frames|] == frames;
  }

  /** Storing a root over the fresh one made on demand is storing it directly. */
  lemma StoreRoot(routes: seq<(string, Node)>, verb: string, x: Node)
    ensures Put(if Find(routes, verb).None? then Put(routes, verb, Fresh) else routes, verb, x) == Put(routes, verb, x)
  {
    PutPut(routes, verb, Fresh, x);
  }

  // ----- What add builds -----

  /**
   * The read side of the trie as the generator lays it out: from node c,
   * follow segment i and the ones after it through the map and key Turn
   * picks; the node reached, if every step finds its key.
   */
  function Reach(c: Node, p: seq<string>, i: nat, params: map<string, string>): Option<Node>
    requires i <= |p|
    decreases |p| - i
  {
    if i == |p| then Some(c)
    else if p[i] == "" then None
    else
      var f := Turn(c, p[i], params);
      match Find(Slot(c, f.inFuncs), f.key)
      case None => None
      case Some(kid) => Reach(kid, p, i + 1, params)
  }

  /** add fails, with errInvalidPath, exactly when a segment not yet walked is empty. */
  lemma {:induction false} InsertError(c: Node, p: seq<string>, i: nat, params: map<string, string>, handle: string)
    requires i <= |p|
    ensures Insert(c, p, i, params, handle).1 ==
      if exists j :: i <= j < |p| && p[j] == "" then Some(ErrInvalidPath) else None
    decreases |p| - i
  {
    if i < |p| && p[i] != "" {
      var f := Turn(c, p[i], params);
      InsertError(Enter(f, p[i][0] == '$', params), p, i + 1, params, handle);
      assert (exists j :: i <= j < |p| && p[j] == "") <==> (exists j :: i + 1 <= j < |p| && p[j] == "");
    }
  }

  /**
   * The walk touches only the entry it descends into: the node's own check
   * and handle, its other map and every other key of the same map stay as
   * they were. An empty segment leaves the node whole.
   */
  lemma InsertKeeps(c: Node, p: seq<string>, i: nat, params: map<string, string>, handle: string)
    requires i < |p|
    ensures p[i] == "" ==> Insert(c, p, i, params, handle).0 == c
    ensures p[i] != "" ==>
      var c' := Insert(c, p, i, params, handle).0;
      var f := Turn(c, p[i], params);
      && c'.check == c.check && c'.handle == c.handle
      && Slot(c', !f.inFuncs) == Slot(c, !f.inFuncs)
      && forall k :: k != f.key ==> Find(Slot(c', f.inFuncs), k) == Find(Slot(c, f.inFuncs), k)
  {
    if p[i] != "" {
      var f := Turn(c, p[i], params);
      var x := Insert(Enter(f, p[i][0] == '$', params), p, i + 1, params, handle).0;
      forall k | k != f.key
        ensures Find(Put(Slot(c, f.inFuncs), f.key, x), k) == Find(Slot(c, f.inFuncs), k)
      {
        PutOther(Slot(c, f.inFuncs), f.key, x, k);
      }
    }
  }

  /** The handle is set on the walk's last node only; a check is never changed by the walk below its node. */
  lemma CheckKept(c: Node, p: seq<string>, i: nat, params: map<string, string>, handle: string)
    requires i <= |p|
    ensures Insert(c, p, i, params, handle).0.check == c.check
  {
    if i < |p| {
      InsertKeeps(c, p, i, params, handle);
    }
  }

  /**
   * Where segment i goes: a "$name" whose name has a PARAMS binding into
   * funcs under "name", with that binding as its check; any other segment
   * into table under itself, a "$name" then getting the check bound to
   * "$name", which is "" unless such a key exists.
   */
  lemma InsertPlaces(c: Node, p: seq<string>, i: nat, params: map<string, string>, handle: string)
    requires i < |p| && p[i] != ""
    ensures var c' := Insert(c, p, i, params, handle).0;
      var seg := p[i];
      && (seg[0] == '$' && seg[1..] in params ==>
            Find(c'.funcs, seg[1..]).Some? && Find(c'.funcs, seg[1..]).value.check == params[seg[1..]])
      && (!(seg[0] == '$' && seg[1..] in params) ==>
            Find(c'.table, seg).Some? && (seg[0] == '$' ==> Find(c'.table, seg).value.check == Lookup(params, seg)))
  {
    var f := Turn(c, p[i], params);
    var kid := Enter(f, p[i][0] == '$', params);
    CheckKept(kid, p, i + 1, params, handle);
  }

  /**
   * Round trip: after a walk that meets no empty segment, following the
   * same segments from the node reaches a node with the new handle, and a
   * last "$" segment's node carries the check bound to its key.
   */
  lemma {:induction false} InsertReach(c: Node, p: seq<string>, i: nat, params: map<string, string>, handle: string)
    requires i <= |p| && forall j :: i <= j < |p| ==> p[j] != ""
    ensures var n := Reach(Insert(c, p, i, params, handle).0, p, i, params);
      && n.Some? && n.value.handle == handle
      && (i < |p| && p[|p| - 1][0] == '$' ==> n.value.check == Lookup(params, Turn(c, p[|p| - 1], params).key))
    decreases |p| - i
  {
    if i < |p| {
      var f := Turn(c, p[i], params);
      var kid := Enter(f, p[i][0] == '$', params);
      var x := Insert(kid, p, i + 1, params, handle).0;
      InsertReach(kid, p, i + 1, params, handle);
      assert Reach(Attach(f, x), p, i, params) == Reach(x, p, i + 1, params) by {
        assert Turn(Attach(f, x), p[i], params) == f.(parent := Attach(f, x));
        assert Find(Slot(Attach(f, x), f.inFuncs), f.key) == Some(x);
      }
    }
  }

  /** add succeeds exactly when the path has no empty segment, and otherwise fails with errInvalidPath. */
  lemma AddError(routes: seq<(string, Node)>, params: map<string, string>, verb: string, path: string, handle: string)
    ensures AddSpec(routes, params, verb, path, handle).1 ==
      if "" in Router.Segments(path) then Some(ErrInvalidPath) else None
  {
    var p := Router.Segments(path);
    InsertError(Find(routes, verb).GetOr(Fresh), p, 0, params, handle);
    assert ("" in p) <==> exists j :: 0 <= j < |p| && p[j] == "";
  }

  /** A successful add is found again: the method's root leads along the path to a node holding the handle. */
  lemma AddReach(routes: seq<(string, Node)>, params: map<string, string>, verb: string, path: string, handle: string)
    requires "" !in Router.Segments(path)
    ensures var root := Find(AddSpec(routes, params, verb, path, handle).0, verb);
      && root.Some?
      && Reach(root.value, Router.Segments(path), 0, params).Some?
      && Reach(root.value, Router.Segments(path), 0, params).value.handle == handle
  {
    InsertReach(Find(routes, verb).GetOr(Fresh), Router.Segments(path), 0, params, handle);
  }

  /** add leaves the roots of the other methods alone. */
  lemma AddKeepsOthers(routes: seq<(string, Node)>, params: map<string, string>, verb: string, path: string, handle: string, k: string)
    requires k != verb
    ensures Find(AddSpec(routes, params, verb, path, handle).0, k) == Find(routes, k)
  {
    var x := Insert(Find(routes, verb).GetOr(Fresh), Router.Segments(path), 0, params, handle);
    PutOther(routes, verb, x.0, k);
  }

  /**
   * Two adds for one method share its tree, and a second add of the same
   * path overwrites the handle: last write wins, with no error.
   */
  lemma AddTwice(routes: seq<(string, Node)>, params: map<string, string>, verb: string, path: string, h1: string, h2: string)
    requires "" !in Router.Segments(path)
    ensures var once := AddSpec(routes, params, verb, path, h1);
      var twice := AddSpec(once.0, params, verb, path, h2);
      && twice.1.None?
      && Find(twice.0, verb) == Some(Insert(Find(once.0, verb).value, Router.Segments(path), 0, params, h2).0)
      && Reach(Find(twice.0, verb).value, Router.Segments(path), 0, params).Some?
      && Reach(Find(twice.0, verb).value, Router.Segments(path), 0, params).value.handle == h2
  {
    var once := AddSpec(routes, params, verb, path, h1);
    AddError(once.0, params, verb, path, h2);
    AddReach(once.0, params, verb, path, h2);
  }

  /** Go's `routes`: the PARAMS bindings and the root of each method. */
  class RouteTable {
    var params: map<string, string>
    var routes: seq<(string, Node)>

    /** `&routes{map[string]string{}, routemap{}}`. */
    constructor ()
      ensures params == map[] && routes == []
    {
      params := map[];
      routes := [];
    }

    /**
     * add: creates the method's root if it has none, then walks the path
     * with a cursor, creating nodes as it goes. The bindings are read, not
     * changed.
     */
    method Add(verb: string, path: string, handle: string) returns (err: Option<Err>)
      modifies this
      ensures params == old(params)
      ensures (routes, err) == AddSpec(old(routes), params, verb, path, handle)
    {
      var root := Find(routes, verb).GetOr(Fresh);
      if Find(routes, verb).None? {
        routes := Put(routes, verb, Fresh);
      }
      var p := Router.Segments(path);
      ghost var spec := Insert(root, p, 0, params, handle);
      ghost var made := routes;
      assert Put(routes, verb, spec.0) == Put(old(routes), verb, spec.0) by {
        StoreRoot(old(routes), verb, spec.0);
      }
      var c := root;
      var frames: seq<Frame> := [];
      var i := 0;
      err := None;
      while i < |p|
        invariant 0 <= i <= |p| && params == old(params) && routes == made
        invariant Resume(frames, c, p, i, params, handle) == spec
        decreases |p| - i
      {
        if p[i] == "" {
          err := Some(ErrInvalidPath);
          break;
        }
        var f := Turn(c, p[i], params);
        Step(frames, c, p, i, params, handle);
        frames := frames + [f];
        c := Enter(f, p[i][0] == '$', params);
        i := i + 1;
      }
      if err.None? {
        c := c.(handle := handle);
      }
      assert (Plug(frames, c), err) == spec;
      routes := Put(routes, verb, Plug(frames, c));
    }

    /** The add loop of loadRoutes: adds the lines in order and stops at the first error. */
    method AddAll(l: seq<Line>) returns (err: Option<Err>)
      modifies this
      ensures params == old(params)
      ensures (routes, err) == AddAllFrom(params, old(routes), l, 0)
    {
      var n := 0;
      while n < |l|
        invariant n <= |l| && params == old(params)
        invariant AddAllFrom(params, routes, l, n) == AddAllFrom(params, old(routes), l, 0)
      {
        AddAllStep(params, routes, l, n);
        err := Add(l[n].verb, l[n].path, l[n].handle);
        if err.Some? {
          return;
        }
        n := n + 1;
      }
      err := None;
    }

    /**
     * The inner loop over a PARAMS or method entry: PARAMS pairs go into the
     * bindings, method pairs are appended to l as routes for u.
     */
    method ScanKeyed(u: string, p: seq<(Yaml, Yaml)>, l: seq<Line>) returns (l': seq<Line>)
      modifies this
      ensures Gathered(params, l') == KeyedFrom(u, p, 0, Gathered(old(params), l))
      ensures routes == old(routes)
    {
      l' := l;
      var j := 0;
      while j < |p|
        invariant j <= |p| && routes == old(routes)
        invariant KeyedFrom(u, p, j, Gathered(params, l')) == KeyedFrom(u, p, 0, Gathered(old(params), l))
      {
        if !p[j].0.Str? || !p[j].1.Str? {
          break;
        }
        var t := p[j].0.s;
        var f := p[j].1.s;
        if u == "PARAMS" {
          params := params[t := f];
        } else {
          l' := l' + [Line(u, t, f)];
        }
        j := j + 1;
      }
    }
  }

  // ----- writeRule -----

  /** A bytes.Buffer: the text written so far. */
  class Buffer {
    var text: string

    constructor ()
      ensures text == ""
    {
      text := "";
    }

    /** WriteString, and Fprintf with its arguments already formatted. */
    method WriteString(s: string)
      modifies this
      ensures text == old(text) + s
    {
      text := text + s;
    }
  }

  /** The line that opens a rule: the quoted key and the start of a `router.Route` literal. */
  function Opening(key: string): string
  {
    "\n\"" + key + "\": &router.Route{"
  }

  /** The handler and check fields, each only when its name is not empty. */
  function Fields(r: Node): string
  {
    (if r.handle != "" then "HandlerFunc: " + r.handle + "," else "")
    + (if r.check != "" then "Check: " + r.check + "," else "")
  }

  /** The title of the block of one of the node's maps. */
  function Title(inFuncs: bool): string
  {
    if inFuncs then "\nFuncs: router.Routes{" else "\nTable: router.Routes{"
  }

  /** What writeRule prints for node r under key: header, fields, one block per non-empty map, and the closing "},". */
  function RuleText(key: string, r: Node): (t: string)
    ensures |Opening(key)| + 2 <= |t| && t[..|Opening(key)|] == Opening(key) && t[|t| - 2..] == "},"
    decreases r, 1
  {
    Opening(key) + Fields(r) + Block(r, false) + Block(r, true) + "},"
  }

  /** The block of one map: nothing when it is empty, else its title, the rules of its entries in order, and "},". */
  function Block(r: Node, inFuncs: bool): string
    decreases r, 0, |Slot(r, inFuncs)| + 1
  {
    if Slot(r, inFuncs) == [] then ""
    else Title(inFuncs) + Listing(r, inFuncs, |Slot(r, inFuncs)|) + "},"
  }

  /** The rules of the first n entries of one of r's maps, in order. */
  function Listing(r: Node, inFuncs: bool, n: nat): string
    requires n <= |Slot(r, inFuncs)|
    decreases r, 0, n
  {
    if n == 0 then ""
    else
      var e := if inFuncs then r.funcs[n - 1] else r.table[n - 1];
      Listing(r, inFuncs, n - 1) + RuleText(e.0, e.1)
  }

  /**
   * The rule of a node with literal keys carries the `Table:` title right
   * after the header and fields; `router.Route` declares no such field.
   */
  lemma RuleTableField(key: string, r: Node)
    requires r.table != []
    ensures var at := |Opening(key) + Fields(r)|;
      at + |Title(false)| <= |RuleText(key, r)| && RuleText(key, r)[at..at + |Title(false)|] == Title(false)
  {
    BlockTitle(r, false);
    Within(Opening(key) + Fields(r), Block(r, false), Block(r, true), "},", |Title(false)|);
  }

  /**
   * The rule of a node with parameter bindings carries the `Funcs:` title
   * after its Table block; `router.Route` declares no such field.
   */
  lemma RuleFuncsField(key: string, r: Node)
    requires r.funcs != []
    ensures var at := |Opening(key) + Fields(r) + Block(r, false)|;
      at + |Title(true)| <= |RuleText(key, r)| && RuleText(key, r)[at..at + |Title(true)|] == Title(true)
  {
    BlockTitle(r, true);
    Within(Opening(key) + Fields(r) + Block(r, false), Block(r, true), "},", "", |Title(true)|);
    assert Opening(key) + Fields(r) + Block(r, false) + Block(r, true) + "}," + "" == RuleText(key, r);
  }

  /** The block of a non-empty map starts with its title. */
  lemma BlockTitle(r: Node, inFuncs: bool)
    requires Slot(r, inFuncs) != []
    ensures |Title(inFuncs)| <= |Block(r, inFuncs)| && Block(r, inFuncs)[..|Title(inFuncs)|] == Title(inFuncs)
  {
    var rest := Listing(r, inFuncs, |Slot(r, inFuncs)|) + "},";
    assert Block(r, inFuncs) == Title(inFuncs) + rest;
    assert (Title(inFuncs) + rest)[..|Title(inFuncs)|] == Title(inFuncs);
  }

  /** A piece of a concatenation starts right after the pieces before it. */
  lemma Within(a: string, b: string, c: string, d: string, k: nat)
    requires k <= |b|
    ensures |a| + k <= |a + b + c + d| && (a + b + c + d)[|a|..|a| + k] == b[..k]
  {
    assert (a + b + c + d)[|a|..|a| + k] == (a + b)[|a|..][..k];
  }

  /** Appending in two steps is appending the two pieces together. */
  lemma Append3(a: string, b: string, c: string)
    ensures (a + b) + c == a + (b + c)
  {
  }

  /** writeRule: prints the node and, depth first, every node below it. */
  method WriteRule(buf: Buffer, key: string, r: Node)
    modifies buf
    ensures buf.text == old(buf.text) + RuleText(key, r)
    decreases r, 1
  {
    ghost var start := buf.text;
    buf.WriteString(Opening(key));
    if r.handle != "" {
      buf.WriteString("HandlerFunc: " + r.handle + ",");
    }
    if r.check != "" {
      buf.WriteString("Check: " + r.check + ",");
    }
    ghost var fields := buf.text;
    assert fields == start + (Opening(key) + Fields(r)) by {
      if r.handle != "" {
        Append3(start, Opening(key), "HandlerFunc: " + r.handle + ",");
      }
      Append3(start + Opening(key), if r.handle != "" then "HandlerFunc: " + r.handle + "," else "", if r.check != "" then "Check: " + r.check + "," else "");
      Append3(start, Opening(key), Fields(r));
    }
    WriteBlock(buf, r, false);
    WriteBlock(buf, r, true);
    buf.WriteString("},");
    Append3(start, Opening(key) + Fields(r), Block(r, false));
    Append3(start, Opening(key) + Fields(r) + Block(r, false), Block(r, true));
    Append3(start, Opening(key) + Fields(r) + Block(r, false) + Block(r, true), "},");
  }

  /** One `if len(m) > 0` block of writeRule: the title, each entry of the map in turn, and "},". */
  method WriteBlock(buf: Buffer, r: Node, inFuncs: bool)
    modifies buf
    ensures buf.text == old(buf.text) + Block(r, inFuncs)
    decreases r, 0, |Slot(r, inFuncs)| + 1
  {
    var m := if inFuncs then r.funcs else r.table;
    if |m| > 0 {
      ghost var start := buf.text;
      buf.WriteString(Title(inFuncs));
      var j := 0;
      while j < |m|
        invariant j <= |m|
        invariant buf.text == start + Title(inFuncs) + Listing(r, inFuncs, j)
      {
        WriteRule(buf, m[j].0, m[j].1);
        Append3(start + Title(inFuncs), Listing(r, inFuncs, j), RuleText(m[j].0, m[j].1));
        j := j + 1;
      }
      buf.WriteString("},");
      Append3(start, Title(inFuncs) + Listing(r, inFuncs, |m|), "},");
      Append3(start, Title(inFuncs), Listing(r, inFuncs, |m|));
    }
  }

  // ----- Brace balance of the output -----

  /** The braces s opens minus the braces it closes. */
  function Depth(s: string): int
  {
    if s == [] then 0
    else (if s[0] == '{' then 1 else if s[0] == '}' then -1 else 0) + Depth(s[1..])
  }

  /** A name with no brace in it. */
  predicate NoBraces(s: string)
  {
    forall i :: 0 <= i < |s| ==> s[i] != '{' && s[i] != '}'
  }

  /** Every name in the trie, keys, checks and handles, is free of braces. */
  predicate BraceFree(r: Node)
    decreases r
  {
    && NoBraces(r.check) && NoBraces(r.handle)
    && (forall e :: e in r.table ==> NoBraces(e.0) && BraceFree(e.1))
    && (forall e :: e in r.funcs ==> NoBraces(e.0) && BraceFree(e.1))
  }

  lemma {:induction false} DepthAppend(a: string, b: string)
    ensures Depth(a + b) == Depth(a) + Depth(b)
  {
    if a == [] {
      assert a + b == b;
    } else {
      DepthAppend(a[1..], b);
      assert (a + b)[1..] == a[1..] + b;
    }
  }

  lemma {:induction false} DepthNone(s: string)
    requires NoBraces(s)
    ensures Depth(s) == 0
  {
    if s != [] {
      DepthNone(s[1..]);
    }
  }

  /** Three brace-free pieces together hold no brace. */
  lemma DepthNone3(a: string, b: string, c: string)
    requires NoBraces(a) && NoBraces(b) && NoBraces(c)
    ensures Depth(a + b + c) == 0
  {
    DepthNone(a);
    DepthNone(b);
    DepthNone(c);
    DepthAppend(a, b);
    DepthAppend(a + b, c);
  }

  /** Brace-free text followed by one opening brace. */
  lemma DepthBrace(t: string)
    requires NoBraces(t)
    ensures Depth(t + "{") == 1
  {
    DepthNone(t);
    DepthAppend(t, "{");
  }

  /** The fixed text around a rule opens one brace and the closing "}," shuts it. */
  lemma OpeningDepth(key: string)
    requires NoBraces(key)
    ensures Depth(Opening(key)) == 1 && Depth("},") == -1
  {
    var t := "\n\"" + key + "\": &router.Route";
    assert NoBraces("\n\"") && NoBraces("\": &router.Route");
    DepthNone3("\n\"", key, "\": &router.Route");
    DepthBrace(t);
    assert t + "{" == Opening(key);
  }

  lemma FieldsDepth(r: Node)
    requires NoBraces(r.check) && NoBraces(r.handle)
    ensures Depth(Fields(r)) == 0
  {
    assert NoBraces("HandlerFunc: ") && NoBraces("Check: ") && NoBraces(",") && NoBraces("");
    var h := if r.handle != "" then "HandlerFunc: " + r.handle + "," else "";
    var c := if r.check != "" then "Check: " + r.check + "," else "";
    if r.handle != "" {
      DepthNone3("HandlerFunc: ", r.handle, ",");
    }
    if r.check != "" {
      DepthNone3("Check: ", r.check, ",");
    }
    DepthAppend(h, c);
  }

  lemma TitleDepth(inFuncs: bool)
    ensures Depth(Title(inFuncs)) == 1
  {
    var t := if inFuncs then "\nFuncs: router.Routes" else "\nTable: router.Routes";
    assert NoBraces(t);
    DepthBrace(t);
    assert t + "{" == Title(inFuncs);
  }

  /**
   * When no name in the trie holds a brace, every rule writeRule prints
   * closes each brace it opens.
   */
  lemma {:induction false} RuleBalanced(key: string, r: Node)
    requires NoBraces(key) && BraceFree(r)
    ensures Depth(RuleText(key, r)) == 0
    decreases r, 1
  {
    OpeningDepth(key);
    FieldsDepth(r);
    BlockBalanced(r, false);
    BlockBalanced(r, true);
    DepthAppend(Opening(key), Fields(r));
    DepthAppend(Opening(key) + Fields(r), Block(r, false));
    DepthAppend(Opening(key) + Fields(r) + Block(r, false), Block(r, true));
    DepthAppend(Opening(key) + Fields(r) + Block(r, false) + Block(r, true), "},");
  }

  lemma {:induction false} BlockBalanced(r: Node, inFuncs: bool)
    requires BraceFree(r)
    ensures Depth(Block(r, inFuncs)) == 0
    decreases r, 0, |Slot(r, inFuncs)| + 1
  {
    var n := |Slot(r, inFuncs)|;
    if n > 0 {
      TitleDepth(inFuncs);
      ListingBalanced(r, inFuncs, n);
      OpeningDepth("");
      DepthAppend(Title(inFuncs), Listing(r, inFuncs, n));
      DepthAppend(Title(inFuncs) + Listing(r, inFuncs, n), "},");
    }
  }

  lemma {:induction false} ListingBalanced(r: Node, inFuncs: bool, n: nat)
    requires BraceFree(r) && n <= |Slot(r, inFuncs)|
    ensures Depth(Listing(r, inFuncs, n)) == 0
    decreases r, 0, n
  {
    if n > 0 {
      var e := if inFuncs then r.funcs[n - 1] else r.table[n - 1];
      assert e in Slot(r, inFuncs);
      ListingBalanced(r, inFuncs, n - 1);
      RuleBalanced(e.0, e.1);
      DepthAppend(Listing(r, inFuncs, n - 1), RuleText(e.0, e.1));
    }
  }

  // ----- loadRoutes -----

  /** A value yaml.Unmarshal decodes: a string, a mapping (map[interface{}]interface{}), or anything else. */
  datatype Yaml = Str(s: string) | Mapping(pairs: seq<(Yaml, Yaml)>) | Other

  /** One route to add, Go's `[]string{method, path, handle}`. */
  datatype Line = Line(verb: string, path: string, handle: string)

  /** What the classification loop gathers: the PARAMS bindings and the routes to add, in order. */
  datatype Gathered = Gathered(params: map<string, string>, lines: seq<Line>)

  /** The method names the generator knows. */
  const Methods: set<string> := {"GET", "POST", "PUT", "PATCH", "DELETE", "OPTIONS", "HELP"}

  /** One string pair of a PARAMS or method entry: a binding, or a route for method u. */
  function Keyed(u: string, t: string, f: string, g: Gathered): Gathered
  {
    if u == "PARAMS" then g.(params := g.params[t := f]) else g.(lines := g.lines + [Line(u, t, f)])
  }

  /** The inner loop over a PARAMS or method entry, from pair j on: the first non-string key or value ends it. */
  function KeyedFrom(u: string, pairs: seq<(Yaml, Yaml)>, j: nat, g: Gathered): Gathered
    requires j <= |pairs|
    decreases |pairs| - j
  {
    if j == |pairs| || !pairs[j].0.Str? || !pairs[j].1.Str? then g
    else KeyedFrom(u, pairs, j + 1, Keyed(u, pairs[j].0.s, pairs[j].1.s, g))
  }

  /**
   * The inner loop over the entry of path k, from pair j on: the first
   * non-string key ends it; a key that is not exactly a method name, or a
   * non-string value, is skipped.
   */
  function PathFrom(k: string, pairs: seq<(Yaml, Yaml)>, j: nat, lines: seq<Line>): seq<Line>
    requires j <= |pairs|
    decreases |pairs| - j
  {
    if j == |pairs| || !pairs[j].0.Str? then lines
    else if pairs[j].0.s !in Methods || !pairs[j].1.Str? then PathFrom(k, pairs, j + 1, lines)
    else PathFrom(k, pairs, j + 1, lines + [Line(pairs[j].0.s, k, pairs[j].1.s)])
  }

  /** One top-level entry: skipped unless its value is a mapping; a PARAMS or method key, in any case, is keyed, any other is a path. */
  function Entry(k: string, v: Yaml, g: Gathered): Gathered
  {
    var u := ToUpper(k);
    if !v.Mapping? then g
    else if u == "PARAMS" || u in Methods then KeyedFrom(u, v.pairs, 0, g)
    else g.(lines := PathFrom(k, v.pairs, 0, g.lines))
  }

  /** The outer loop from entry i on. */
  function ClassifyFrom(doc: seq<(string, Yaml)>, i: nat, g: Gathered): Gathered
    requires i <= |doc|
    decreases |doc| - i
  {
    if i == |doc| then g else ClassifyFrom(doc, i + 1, Entry(doc[i].0, doc[i].1, g))
  }

  /** The classification loop of loadRoutes over a decoded document: every line it gathers names a known method. */
  function Classify(doc: seq<(string, Yaml)>): (g: Gathered)
    ensures MethodLines(g.lines)
  {
    ClassifyLines(doc, 0, Gathered(map[], []));
    ClassifyFrom(doc, 0, Gathered(map[], []))
  }

  /** The add loop from line i on: the first error stops it. */
  function AddAllFrom(params: map<string, string>, routes: seq<(string, Node)>, lines: seq<Line>, i: nat): (seq<(string, Node)>, Option<Err>)
    requires i <= |lines|
    decreases |lines| - i
  {
    if i == |lines| then (routes, None)
    else
      var r := AddSpec(routes, params, lines[i].verb, lines[i].path, lines[i].handle);
      if r.1.Some? then r else AddAllFrom(params, r.0, lines, i + 1)
  }

  /** One step of the add loop: the line's outcome, then the rest unless it failed. */
  lemma AddAllStep(params: map<string, string>, routes: seq<(string, Node)>, lines: seq<Line>, i: nat)
    requires i < |lines|
    ensures var r := AddSpec(routes, params, lines[i].verb, lines[i].path, lines[i].handle);
      AddAllFrom(params, routes, lines, i) == if r.1.Some? then r else AddAllFrom(params, r.0, lines, i + 1)
  {
  }

  /**
   * loadRoutes after decoding: the method roots built from every gathered
   * line, all bindings known, and the error if one stopped it, which is
   * errInvalidPath and comes exactly when a gathered path has an empty segment.
   */
  function Load(doc: seq<(string, Yaml)>): (r: (seq<(string, Node)>, Option<Err>))
    ensures r.1.None? || r.1 == Some(ErrInvalidPath)
    ensures r.1.Some? <==> exists l :: l in Classify(doc).lines && "" in Router.Segments(l.path)
  {
    var g := Classify(doc);
    AddAllError(g.params, [], g.lines, 0);
    assert (exists l :: l in g.lines && "" in Router.Segments(l.path)) <==> EmptyAhead(g.lines, 0);
    AddAllFrom(g.params, [], g.lines, 0)
  }

  /**
   * loadRoutes from the decoded document on: gathers bindings and lines,
   * then adds the lines in order. A nil table on error.
   */
  method LoadRoutes(doc: seq<(string, Yaml)>) returns (table: RouteTable?, err: Option<Err>)
    ensures err == Load(doc).1
    ensures err.Some? ==> table == null
    ensures err.None? ==> table != null && table.params == Classify(doc).params && table.routes == Load(doc).0
  {
    var r := new RouteTable();
    var l: seq<Line> := [];
    var i := 0;
    while i < |doc|
      invariant i <= |doc| && r.routes == []
      invariant ClassifyFrom(doc, i, Gathered(r.params, l)) == Classify(doc)
    {
      var k := doc[i].0;
      var v := doc[i].1;
      var u := ToUpper(k);
      if v.Mapping? {
        if u == "PARAMS" || u in Methods {
          l := r.ScanKeyed(u, v.pairs, l);
        } else {
          l := ScanPath(k, v.pairs, l);
        }
      }
      i := i + 1;
    }
    assert Gathered(r.params, l) == Classify(doc);
    var e := r.AddAll(l);
    if e.Some? {
      return null, e;
    }
    return r, None;
  }

  /** The inner loop over the entry of path k: the lines it appends to l. */
  method ScanPath(k: string, p: seq<(Yaml, Yaml)>, l: seq<Line>) returns (l': seq<Line>)
    ensures l' == PathFrom(k, p, 0, l)
  {
    l' := l;
    var j := 0;
    while j < |p|
      invariant j <= |p|
      invariant PathFrom(k, p, j, l') == PathFrom(k, p, 0, l)
    {
      if !p[j].0.Str? {
        break;
      }
      var t := p[j].0.s;
      if t in Methods && p[j].1.Str? {
        l' := l' + [Line(t, k, p[j].1.s)];
      }
      j := j + 1;
    }
  }

  // ----- main -----

  /** How main ends: the text written to the output file, or log.Fatal with an error. */
  datatype Exit = Written(text: string) | Fatal(err: Err)

  const ErrNoInput: Err := Plain("input filename is required (use -i flag)")
  const ErrNoPackage: Err := Plain("package name is required (use -p flag)")

  /** The import path of the router package. */
  const RouterImport: string := "github.com/martingallagher/routify/router"

  /** The package clause, the router import and the opening of the variable's `router.Routes` literal. */
  function FileHeader(pkg: string, varName: string): string
  {
    "package " + pkg + " \n\nimport \"" + RouterImport + "\"\n\nvar " + varName + " = router.Routes{"
  }

  const Footer: string := "\n}\n"

  /** A method root that nothing was added below. */
  predicate Bare(r: Node)
  {
    r.table == [] && r.funcs == []
  }

  /** The rules of the first n method roots, bare roots skipped. */
  function Rules(routes: seq<(string, Node)>, n: nat): string
    requires n <= |routes|
  {
    if n == 0 then ""
    else if Bare(routes[n - 1].1) then Rules(routes, n - 1)
    else Rules(routes, n - 1) + RuleText(routes[n - 1].0, routes[n - 1].1)
  }

  /** The generated Go file. */
  function FileText(pkg: string, varName: string, routes: seq<(string, Node)>): string
  {
    FileHeader(pkg, varName) + Rules(routes, |routes|) + Footer
  }

  /**
   * main from the parsed flags and the decoded routes file on: it stops
   * fatally exactly when a flag is missing or a gathered path has an empty
   * segment, and with both flags set the error is errInvalidPath.
   */
  function GenerateSpec(inputFile: string, pkg: string, varName: string, doc: seq<(string, Yaml)>): (r: Exit)
    ensures r.Fatal? <==>
      inputFile == "" || pkg == "" || exists l :: l in Classify(doc).lines && "" in Router.Segments(l.path)
    ensures inputFile != "" && pkg != "" && r.Fatal? ==> r.err == ErrInvalidPath
  {
    if inputFile == "" then Fatal(ErrNoInput)
    else if pkg == "" then Fatal(ErrNoPackage)
    else
      var (routes, err) := Load(doc);
      if err.Some? then Fatal(err.value) else Written(FileText(pkg, varName, routes))
  }

  /** main: checks the flags, loads the routes, and prints every method root that has children. */
  method Generate(inputFile: string, pkg: string, varName: string, doc: seq<(string, Yaml)>) returns (exit: Exit)
    ensures exit == GenerateSpec(inputFile, pkg, varName, doc)
  {
    if inputFile == "" {
      return Fatal(ErrNoInput);
    } else if pkg == "" {
      return Fatal(ErrNoPackage);
    }
    var r, err := LoadRoutes(doc);
    if err.Some? {
      return Fatal(err.value);
    }
    var text := WriteFile(pkg, varName, r.routes);
    return Written(text);
  }

  /** The printing half of main: the header, the method roots, and the footer, into a fresh buffer. */
  method WriteFile(pkg: string, varName: string, routes: seq<(string, Node)>) returns (text: string)
    ensures text == FileText(pkg, varName, routes)
  {
    var buf := new Buffer();
    var header := FileHeader(pkg, varName);
    buf.WriteString(header);
    assert buf.text == header;
    WriteRoots(buf, routes);
    buf.WriteString(Footer);
    return buf.text;
  }

  /** The range loop of main over the method roots: a rule for each root that has children. */
  method WriteRoots(buf: Buffer, routes: seq<(string, Node)>)
    modifies buf
    ensures buf.text == old(buf.text) + Rules(routes, |routes|)
  {
    ghost var start := buf.text;
    var i := 0;
    while i < |routes|
      invariant i <= |routes|
      invariant buf.text == start + Rules(routes, i)
    {
      if !Bare(routes[i].1) {
        WriteRule(buf, routes[i].0, routes[i].1);
        Append3(start, Rules(routes, i), RuleText(routes[i].0, routes[i].1));
      }
      i := i + 1;
    }
  }

  // ----- What loadRoutes and main promise -----

  /** Every gathered line names one of the known methods. */
  predicate MethodLines(lines: seq<Line>)
  {
    forall l :: l in lines ==> l.verb in Methods
  }

  /**
   * A PARAMS or method entry only appends lines, for its own method, and
   * only a PARAMS entry binds; a PARAMS entry yields no line at all.
   */
  lemma {:induction false} KeyedLines(u: string, pairs: seq<(Yaml, Yaml)>, j: nat, g: Gathered)
    requires j <= |pairs| && (u == "PARAMS" || u in Methods)
    ensures var g' := KeyedFrom(u, pairs, j, g);
      && g.lines <= g'.lines
      && (MethodLines(g.lines) ==> MethodLines(g'.lines))
      && (u == "PARAMS" ==> g'.lines == g.lines)
      && (u != "PARAMS" ==> g'.params == g.params)
    decreases |pairs| - j
  {
    if j < |pairs| && pairs[j].0.Str? && pairs[j].1.Str? {
      KeyedLines(u, pairs, j + 1, Keyed(u, pairs[j].0.s, pairs[j].1.s, g));
    }
  }

  /** A path entry only appends lines, each for a known method and for that path. */
  lemma {:induction false} PathLines(k: string, pairs: seq<(Yaml, Yaml)>, j: nat, lines: seq<Line>)
    requires j <= |pairs|
    ensures var lines' := PathFrom(k, pairs, j, lines);
      && lines <= lines'
      && (forall n :: |lines| <= n < |lines'| ==> lines'[n].verb in Methods && lines'[n].path == k)
    decreases |pairs| - j
  {
    if j < |pairs| && pairs[j].0.Str? {
      if pairs[j].0.s !in Methods || !pairs[j].1.Str? {
        PathLines(k, pairs, j + 1, lines);
      } else {
        var l1 := lines + [Line(pairs[j].0.s, k, pairs[j].1.s)];
        PathLines(k, pairs, j + 1, l1);
        var lines' := PathFrom(k, pairs, j + 1, l1);
        assert l1[|lines|] == Line(pairs[j].0.s, k, pairs[j].1.s);
        assert forall n :: |lines| <= n < |l1| ==> lines'[n] == l1[n];
      }
    }
  }

  /** The classification loop from entry i keeps every earlier line and adds only lines for known methods. */
  lemma {:induction false} ClassifyLines(doc: seq<(string, Yaml)>, i: nat, g: Gathered)
    requires i <= |doc| && MethodLines(g.lines)
    ensures g.lines <= ClassifyFrom(doc, i, g).lines
    ensures MethodLines(ClassifyFrom(doc, i, g).lines)
    decreases |doc| - i
  {
    if i < |doc| {
      var (k, v) := doc[i];
      var g1 := Entry(k, v, g);
      assert g.lines <= g1.lines && MethodLines(g1.lines) by {
        if v.Mapping? {
          if ToUpper(k) == "PARAMS" || ToUpper(k) in Methods {
            KeyedLines(ToUpper(k), v.pairs, 0, g);
          } else {
            PathLines(k, v.pairs, 0, g.lines);
            var g' := g1;
            forall l | l in g'.lines ensures l.verb in Methods {
              var n :| 0 <= n < |g'.lines| && g'.lines[n] == l;
              if n < |g.lines| {
                assert l == g.lines[n];
              }
            }
          }
        }
      }
      ClassifyLines(doc, i + 1, g1);
    }
  }

  /** Some line from i on has a path with an empty segment. */
  predicate EmptyAhead(lines: seq<Line>, i: nat)
  {
    exists j :: i <= j < |lines| && "" in Router.Segments(lines[j].path)
  }

  /** The add loop fails, with errInvalidPath, exactly when a line still to add has a path with an empty segment. */
  lemma {:induction false} AddAllError(params: map<string, string>, routes: seq<(string, Node)>, lines: seq<Line>, i: nat)
    requires i <= |lines|
    ensures AddAllFrom(params, routes, lines, i).1 == if EmptyAhead(lines, i) then Some(ErrInvalidPath) else None
    decreases |lines| - i
  {
    if i < |lines| {
      var l := lines[i];
      AddError(routes, params, l.verb, l.path, l.handle);
      if "" in Router.Segments(l.path) {
        assert EmptyAhead(lines, i) by {
          assert i <= i < |lines| && "" in Router.Segments(lines[i].path);
        }
      } else {
        AddAllError(params, AddSpec(routes, params, l.verb, l.path, l.handle).0, lines, i + 1);
        EmptyAheadStep(lines, i);
      }
    }
  }

  /** A line without an empty segment does not change whether one lies ahead. */
  lemma EmptyAheadStep(lines: seq<Line>, i: nat)
    requires i < |lines| && "" !in Router.Segments(lines[i].path)
    ensures EmptyAhead(lines, i) <==> EmptyAhead(lines, i + 1)
  {
    if EmptyAhead(lines, i) {
      var j :| i <= j < |lines| && "" in Router.Segments(lines[j].path);
      assert j != i;
    }
  }

  /** Method roots without children print nothing: with only such roots the file is the header and the footer. */
  lemma {:induction false} BareSkipped(routes: seq<(string, Node)>, n: nat)
    requires n <= |routes| && forall e :: e in routes ==> Bare(e.1)
    ensures Rules(routes, n) == ""
  {
    if n > 0 {
      assert routes[n - 1] in routes;
      BareSkipped(routes, n - 1);
    }
  }

  /** The rules of the roots close every brace they open, when no name holds a brace. */
  lemma {:induction false} RulesBalanced(routes: seq<(string, Node)>, n: nat)
    requires n <= |routes| && forall e :: e in routes ==> NoBraces(e.0) && BraceFree(e.1)
    ensures Depth(Rules(routes, n)) == 0
  {
    if n > 0 {
      var e := routes[n - 1];
      assert e in routes;
      RulesBalanced(routes, n - 1);
      if !Bare(e.1) {
        RuleBalanced(e.0, e.1);
        DepthAppend(Rules(routes, n - 1), RuleText(e.0, e.1));
      }
    }
  }

  /** The fixed pieces of the header hold no brace. */
  lemma HeaderPieces()
    ensures NoBraces("package ") && NoBraces(" \n\nimport \"") && NoBraces(RouterImport)
    ensures NoBraces("\"\n\nvar ") && NoBraces(" = router.Routes")
  {
  }

  /** The footer closes one brace. */
  lemma FooterDepth()
    ensures Depth(Footer) == -1
  {
  }

  /** The header opens exactly one brace, the one the footer closes. */
  lemma HeaderDepth(pkg: string, varName: string)
    requires NoBraces(pkg) && NoBraces(varName)
    ensures Depth(FileHeader(pkg, varName)) == 1
  {
    var a := "package " + pkg + " \n\nimport \"";
    var b := a + RouterImport + "\"\n\nvar ";
    HeaderPieces();
    DepthNone3("package ", pkg, " \n\nimport \"");
    DepthNone3(RouterImport, "\"\n\nvar ", varName);
    DepthAppend(a, RouterImport + "\"\n\nvar " + varName);
    assert a + (RouterImport + "\"\n\nvar " + varName) == b + varName;
    DepthBrace(" = router.Routes");
    assert " = router.Routes" + "{" == " = router.Routes{";
    DepthAppend(b + varName, " = router.Routes{");
  }

  /**
   * The generated file closes every brace it opens when the package name,
   * the variable name and every name in the trie are free of braces.
   */
  lemma FileBalanced(pkg: string, varName: string, routes: seq<(string, Node)>)
    requires NoBraces(pkg) && NoBraces(varName)
    requires forall e :: e in routes ==> NoBraces(e.0) && BraceFree(e.1)
    ensures Depth(FileText(pkg, varName, routes)) == 0
  {
    HeaderDepth(pkg, varName);
    FooterDepth();
    RulesBalanced(routes, |routes|);
    DepthAppend(FileHeader(pkg, varName), Rules(routes, |routes|));
    DepthAppend(FileHeader(pkg, varName) + Rules(routes, |routes|), Footer);
  }
}
