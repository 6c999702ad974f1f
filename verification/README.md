# routify in Dafny

routify is a small HTTP router for Go, plus an offline generator that
produces the router's route table.

- **The router** (package `router`) is a trie of `Route` nodes under one root per HTTP method.
  - A node has a parameter name, an optional check on the captured segment, an optional handler, at most one parameter child (`Child`) and a map of literal children (`Children`).
  - `Router.Get` walks a request path through the trie. Literal children whose key is a whole remaining suffix win first, then the parameter child, then the literal child for one segment. Parameters are captured in path order.
  - `Router.Add` inserts a pattern such as `users/$id/posts`. A run of consecutive literal segments is coalesced into one key (`staticPath`), and a `$name` segment becomes the parameter child, with the validator registered under `"$name"`.
  - `Params` reads the captures: `Get` (first match), `GetInt`, `GetUint` (decimal, 64-bit), and `Scan`, which stores into a destination chosen by its kind.
  - `Error` pairs an HTTP status with a message. `IsYear`, `IsMonth` and `IsDay` are the stock validators; `validateNumber` is the website example's validator.
- **The generator** `routify.go` reads a YAML routes file and builds its own trie.
  - Its nodes keep literal keys in `table`, parameters bound by a `PARAMS` section in `funcs`, and hold the names of a check and a handler.
  - It prints that trie as the Go source of a `router.Routes` literal.

How the model is laid out:

- **Modules.** One module per source concern:
  - `Optional`, `Errors`, `GoStrings`, `Strconv` and `Entries` hold the Go values and library behaviour the core relies on. `Entries` models a Go map keyed by strings as a sequence of pairs with unique keys.
  - `Util`, `Website`, `Params`, `Router` and `Routify` model the core files.
  - `RouterFacts` proves properties that relate several operations.
  - `Fixtures` and `RoutifyFixtures` state the repository's own route tables and test requests as lemmas.
- **Trie operations.** Each is a pure specification function: `Walk`/`Resolve` for Get, `Insert`/`AddSpec` for router Add, and `Routify.Insert`/`Routify.AddSpec` for the generator's add.
- **Imperative code.** The source's imperative code is a class whose methods are proved equal to those functions:
  - `Router.Router`, with `Get`, `Add`, `ServeHTTP` and `AddValidator`; its `Valid` invariant (every map has unique keys) holds from the constructor on and is kept by `Add` and `AddValidator`;
  - `Params.Destination`, the variable `Params.Scan` writes through (Scan itself is a module-level method that modifies it);
  - `Routify.RouteTable`, with `Add`;
  - `Routify.Buffer`, which the module-level method `Routify.WriteRule` (Go's `writeRule`) appends to.
- **Loops.** The loops that walk the trie with a cursor (Get, Add, add) are `while` loops. The nodes above the cursor are kept as a zipper of frames, and each method's postcondition ties its result to the specification function.

## Model

| member | source | states |
|---|---|---|
| Errors.NewError | router/errors.go:37-39 | the error carries exactly the given status code and message |
| Errors.PredefinedErrors | router/errors.go:9-16 | ErrInvalidMethod is 405 "invalid HTTP method", ErrRouteNotFound is 404 "route not found", ErrBadRequest is 400 "bad request" (status codes of RFC 9110 sections 15.5.6, 15.5.5 and 15.5.1) |
| GoStrings.IndexByte | router/router.go:72 | the result is -1 exactly when the byte is absent, and otherwise the position of its first occurrence |
| GoStrings.Split | router/router.go:122 | Split yields at least one part, no part contains the separator, and joining the parts gives back the input |
| GoStrings.SplitJoin | router/router.go:122 | splitting the join of separator-free parts gives back the parts (the other half of the round trip) |
| GoStrings.IndexByteAbsent | router/router.go:72-77 | with no '/' left, IndexByte returns -1, so the whole rest is the segment |
| GoStrings.IndexByteAfter | router/router.go:72-77 | in a + "/" + t with no '/' in a, the first '/' is at the end of a |
| GoStrings.ToUpper | router/router.go:107 | same length, no lower-case ASCII letter is left, and each byte is either kept or is a lower-case letter raised by 32 |
| GoStrings.ToUpperIdempotent | router/router.go:107 | upper-casing twice is upper-casing once |
| GoStrings.ToUpperNoLower | router/router.go:107 | a method name with no lower-case letter is left unchanged |
| Entries.FindNone | router/router.go:44-48 | a map lookup misses exactly when no pair holds the key |
| Entries.FindSome | router/router.go:44 | a lookup that hits returns a value stored under that key |
| Entries.Put | router/router.go:150-152 | after `m[k] = v`, looking up k yields v |
| Entries.PutOther | router/router.go:150-152 | `m[k] = v` leaves every other key's lookup unchanged |
| Entries.PutUnique | router/router.go:114-116 | assignment keeps keys unique; it grows the map only when the key was new |
| Entries.PutPut | routify.go:90-91 | a second assignment to a key overwrites the first |
| Entries.PutNew | router/router.go:114-116 | assigning an absent key appends the pair |
| Entries.PutMembers | router/router.go:150-152 | after assignment the map holds the new pair and otherwise only old pairs |
| Entries.FindFirst | router/router.go:65 | a lookup finds the first pair with the key |
| Entries.FindUnique | router/router.go:65 | in a map with unique keys, every stored pair is found by its key |
| Strconv.Value | router/params.go:44 | the value of a digit string is never negative |
| Strconv.Decimal | router/params.go:44 | the decimal spelling of a natural number is a non-empty digit string |
| Strconv.ValueDecimal | router/params.go:44 | reading back the decimal spelling of n gives n |
| Strconv.ScanDigits | router/params.go:55 | the digit scan stays within 0..2^64-1 and returns the clamped maximum on overflow |
| Strconv.ScanDigitsMeaning | router/params.go:55 | the scan succeeds exactly on an all-digit string whose value fits 64 bits, then returns that value; an overflow is a range error with 2^64-1 |
| Strconv.ParseUint | router/params.go:48-56 | the result is in 0..2^64-1 and equals 2^64-1 when the error is a range error |
| Strconv.ParseUintMeaning | router/params.go:48-56 | ParseUint succeeds exactly on a non-empty digit string of value at most 2^64-1, returns that value, and otherwise reports the input with a range error when only the size is wrong |
| Strconv.ParseUintDecimal | router/params.go:48-56 | every 64-bit unsigned value round-trips through its decimal spelling |
| Strconv.ParseIntDecimal | router/params.go:37-45 | every 64-bit signed value round-trips through its decimal spelling, negatives with a leading '-' |
| Strconv.ParseInt | router/params.go:37-45 | the value always lies in the int64 range, a range error comes with one of the two bounds, and every error names ParseInt and the input |
| Strconv.ParseIntMeaning | router/params.go:37-45 | ParseInt succeeds exactly on an optional sign followed by a non-empty digit string whose signed value fits int64, and returns that value |
| Params.Get | router/params.go:26-34 | "" when no parameter has the name, otherwise the value of the first one that does |
| Params.GetInt | router/params.go:37-45 | (0, no error) for an absent or empty value, otherwise ParseInt's value and error unchanged; the value always fits int64 |
| Params.GetUint | router/params.go:48-56 | (0, no error) for an absent or empty value, otherwise ParseUint's value and error unchanged; the value always fits uint64 |
| Params.WrapSignedRange | router/params.go:81-90 | SetInt on an n-bit destination stores a value of its range congruent to the parsed one, and the parsed value itself when it fits |
| Params.WrapUnsignedRange | router/params.go:92-101 | SetUint on an n-bit destination stores a value of its range congruent to the parsed one, and the parsed value itself when it fits |
| Params.ScanSpec | router/params.go:59-121 | apart from handing the value to the destination's own Scanner, Scan writes the destination exactly when it returns no error; the Scanner gets Get(k) and its error is returned |
| Params.ScanText | router/params.go:61-69 | a *string or *[]byte destination receives Get(k) and no error |
| Params.ScanNonPointer | router/params.go:72-76 | a non-pointer destination is refused with ErrValueDestination and left alone |
| Params.ScanInteger | router/params.go:81-101 | an integer destination is parsed with GetInt or GetUint, before any Scanner check; a parse error is returned unchanged and stores nothing; a 64-bit destination receives the parsed value |
| Params.ScanOther | router/params.go:116-120 | any other pointer calls the destination's own Scan with Get(k) when it is a Scanner and returns its error, else ErrUnsupportedType |
| Params.Destination.constructor | router/params.go:59 | a fresh destination holds the zero values |
| Params.Scan | router/params.go:59-121 | returns what ScanSpec says and changes exactly the destination field ScanSpec names, every other field unchanged |
| Util.IsYear | router/util.go:8-14 | IsYear never yields an error value, and it cannot panic on four or more bytes |
| Util.IsYearFourBytes | router/util.go:8-14 | every four-byte string is a "year", whatever its bytes |
| Util.IsYearFalse | router/util.go:8-14 | IsYear is false exactly when the string has at least five bytes whose first four are all at or above ':'; it panics on one byte or none |
| Util.IsMonth | router/util.go:17-23 | an accepted month is two bytes and not "00" |
| Util.IsDay | router/util.go:26-32 | an accepted day is two bytes and not "00" |
| Util.IsMonthDigits | router/util.go:17-23 | on two digits, IsMonth accepts exactly 01..12; it rejects every other length |
| Util.IsDayDigits | router/util.go:26-32 | on two digits, IsDay accepts exactly 01..31; it rejects every other length |
| Util.NonDigitPairsAccepted | router/util.go:17-32 | the checks only bound bytes from above, so "0/" and "1!" are months and "0/" and "3 " are days |
| Util.LiteralRun | router/util.go:34-52 | the run is never an error, is never longer than the input and, when the first segment is a literal, holds at least it; its only panic is the index out of range of `v[0]` |
| Util.LiteralRunShape | router/util.go:34-52 | the run is the longest prefix of non-'$' segments: all literal, and followed by a '$' segment when it stops early |
| Util.LiteralRunPanics | router/util.go:38-39 | indexing v[0] panics exactly when an empty segment comes before the first '$' segment |
| Util.JoinSnoc | router/util.go:43-47 | appending a segment to the run extends the joined key by "/" and the segment |
| Util.StaticPath | router/util.go:34-52 | the loop returns the '/'-joined run and its length minus one, or the panic |
| Util.JoinStep | router/util.go:43-47 | one loop turn extends the joined prefix by one segment |
| Util.PrefixedStep | router/util.go:38-48 | one loop turn moves one literal segment from the rest to the prefix without changing the result |
| Website.ValidateNumber | example/website/methods.go:26-38 | true exactly for a non-empty string of ASCII digits |
| Website.AllDigitsFrom | example/website/methods.go:31-35 | true exactly when every byte from position i on is a digit |
| Router.Accepts | router/router.go:83 | a check never returns an error value; only IsYear can panic |
| Router.Walk | router/router.go:64-102 | once the method is known, the only error a lookup returns is ErrRouteNotFound |
| Router.Resolve | router/router.go:43-57 | an unknown method is ErrInvalidMethod; "" and "/" serve the handler of the "/" child if it has one, else ErrRouteNotFound |
| Router.Segments | router/router.go:119-125 | a pattern always splits into at least one segment |
| Router.Insert | router/router.go:127-158 | insertion keeps the node's own parameter name and check, and sets no handler when it fails |
| Router.ExistingMethodFailure | router/router.go:111-146 | Add on a method that already exists never succeeds: a leading empty segment is ErrInvalidPath; otherwise staticPath panics with index out of range exactly when an empty segment follows a run of literal segments from the start, and in every other case the nil cursor is dereferenced |
| Router.AddSpec | router/router.go:106-161 | an existing method leaves the table unchanged and fails; a new method always gets its root |
| Router.Adopt | router/router.go:133-141 | a parameter child with the segment's name is kept unchanged; otherwise it is replaced by a fresh node with that name, the given check, no handler and no children |
| Router.Open | router/router.go:149-155 | the literal child under the coalesced key exists afterwards |
| Router.ParamTurn | router/router.go:133-143 | one '$' turn of the loop moves the cursor to the (possibly replaced) parameter child |
| Router.LiteralTurn | router/router.go:146-155 | one literal turn skips the whole coalesced run and moves the cursor to the child under its key |
| Router.InsertLiteral | router/router.go:146-155 | a literal run is stored under its joined key and insertion continues below it |
| Router.InsertPanic | router/router.go:146 | an empty segment inside a literal run panics in staticPath and leaves the node as it was |
| Router.OpenPut | router/router.go:149-155 | reopening the key finds the old child, and storing under it is a map assignment |
| Router.Descend | router/router.go:119-158 | the insertion loop over a fresh root builds exactly Insert's trie and outcome |
| Router.FindTidy | router/router.go:28 | every child of a well-formed node is well formed |
| Router.PutTidy | router/router.go:149-153 | storing a well-formed child keeps a node well formed |
| Router.InsertTidy | router/router.go:127-158 | insertion keeps every Children map of the trie free of duplicate keys |
| Router.ParamTurnTidy | router/router.go:133-143 | the parameter turn keeps the trie well formed |
| Router.LiteralTurnTidy | router/router.go:146-155 | the literal turn keeps the trie well formed |
| Router.AddTidy | router/router.go:106-161 | Add keeps the method table and every node map free of duplicate keys |
| Router.Serve | router/router.go:174-188 | a match runs the handler; a routing error writes its own status; any other error writes 500 (RFC 9110 section 15.6.1); a panic is a crash |
| Router.Router.constructor | router/router.go:22-25 | an empty router has no routes and no validators, and is valid |
| Router.Router.Literal | router/router.go:22-25 | a router literal with unique keys holds exactly the given table and validators, and is valid |
| Router.Router.Get | router/router.go:43-103 | the lookup loop returns exactly Resolve's handler and parameters or error |
| Router.Router.Add | router/router.go:106-161 | the table becomes AddSpec's, the validators are untouched, and the router stays valid |
| Router.Router.ServeHTTP | router/router.go:174-188 | the reply is Serve applied to Get's result |
| Router.Router.AddValidator | router/router.go:165-171 | the validator is stored under its name, replacing an old one, and the routes are untouched; the router stays valid |
| RouterFacts.ParamBeforeLiteral | router/router.go:65-91 | with no whole-suffix literal, a parameter child captures the first segment before any one-segment literal is tried; a rejecting check is ErrRouteNotFound |
| RouterFacts.LiteralSegment | router/router.go:92-95 | without a parameter child, the first segment must be a literal key, else ErrRouteNotFound |
| RouterFacts.LastSegment | router/router.go:65-91 | the last segment goes to its literal child, then to an accepting parameter child, else ErrRouteNotFound |
| RouterFacts.CaptureFront | router/router.go:79-87 | a captured segment extends an accepted trie path and its captures |
| RouterFacts.LiteralFront | router/router.go:92-95 | a literal segment extends an accepted trie path without captures |
| RouterFacts.WalkSound | router/router.go:64-102 | every successful lookup follows real trie edges that spell the request path, and returns exactly the captures along them |
| RouterFacts.CaptureSound | router/router.go:79-91 | the soundness step through a parameter child |
| RouterFacts.LiteralSound | router/router.go:92-95 | the soundness step through a one-segment literal child |
| RouterFacts.ResolveWalk | router/router.go:50-60 | a request path of two or more bytes with a leading '/' is walked without the slash |
| RouterFacts.ServeStatus | router/router.go:174-185 | a request that gets no handler gets 405 or 404: 405 for an unknown method, and 404 whenever the method is known |
| RouterFacts.AddOther | router/router.go:106-117 | Add never changes the root of another method |
| RouterFacts.LiteralRunAll | router/util.go:34-52 | a pattern with only literal segments is one run |
| RouterFacts.AddThenGetLiteral | router/router.go:106-161 | after adding a literal pattern under a new method, Get of that path, with or without a leading '/', returns the handler and no parameters |
| RouterFacts.JoinHasSegment | router/router.go:121-125 | a non-empty joined literal pattern is never the root pattern "/" |
| RouterFacts.AddThenGetRoot | router/router.go:52-57 | after adding "/" under a new method, Get of "" and "/" returns its handler |
| RouterFacts.LeadingSlashSegments | router/router.go:121-125 | a pattern with a leading '/' splits into a first empty segment |
| RouterFacts.AddLeadingSlash | router/router.go:111-130 | a pattern with a leading '/' fails with ErrInvalidPath, yet the new method's empty root stays in the table |
| RouterFacts.AddExisting | router/router.go:111-134 | adding to a method that already exists dereferences the nil cursor, and the table is unchanged |
| RouterFacts.LiteralRunBefore | router/util.go:38-41 | the run stops at the first '$' segment |
| RouterFacts.InsertRunParam | router/router.go:127-158 | a literal run followed by a parameter builds one coalesced literal key with the parameter child below it |
| RouterFacts.RunParamSegments | router/router.go:119-125 | the pattern `run/$x` splits into the run's segments and "$x" |
| RouterFacts.AddRunParam | router/router.go:106-161 | adding `run/$x` to a new method appends exactly that root |
| RouterFacts.RunParamWalk | router/router.go:64-102 | a one-key run with a parameter child serves `run/v` with the capture x=v when the check accepts v, and ErrRouteNotFound when it rejects it |
| RouterFacts.AddThenGetParam | router/router.go:43-161 | after adding `lit/$x`, Get of `/lit/v` returns the handler with x=v when the validator accepts, ErrRouteNotFound when it rejects |
| RouterFacts.InsertOutcome | router/router.go:127-158 | from any node and segment, the walk of Add succeeds exactly when no later segment is empty; otherwise the first empty segment decides: ErrInvalidPath when the walk stands on it (first, or right after a '$' segment), else staticPath's index panic |
| RouterFacts.ParamOutcome | router/router.go:133-143 | at a '$' segment the walk ends as the walk from the parameter child at the next segment does, which is as EndsAs says |
| RouterFacts.RunOutcome | router/router.go:146-155 | at a literal run that staticPath reads through, the walk ends as the walk below the run's key does, which is as EndsAs says |
| RouterFacts.EndsAfterParam | router/router.go:133-143 | a '$' segment passes the outcome of the rest of the walk back unchanged |
| RouterFacts.EndsAfterRun | router/router.go:146-155 | a literal run that ends before an empty segment passes the outcome of the rest of the walk back unchanged |
| RouterFacts.EndsInRun | router/util.go:38-39 | a literal run that reaches an empty segment ends the walk in the index panic |
| RouterFacts.AddNewOutcome | router/router.go:106-161 | Add for a new method succeeds exactly when the pattern has no empty segment, and otherwise fails or panics as the first empty segment decides |
| RouterFacts.InsertPlaced | router/router.go:127-158 | a successful walk from a childless node lays the pattern out: each "$name" is the parameter child named name with the validator of "$name", each literal run is the child under its joined key, and the last node holds the handler |
| RouterFacts.AddPlaced | router/router.go:106-161 | Add for a new method and a pattern without empty segments succeeds, and the method's root lays the whole pattern out down to the handler |
| RouterFacts.AddCoalescedUnreachable | router/router.go:65-95 | after adding a pattern whose literal run has two or more segments followed by a parameter, a request that fills the parameter is never found, because the coalesced key does not match one segment at a time |
| Fixtures.LiteralChainWalk | router/routes.go:75-161 | a chain of one-segment literal children serves its joined path without captures |
| Fixtures.ParamChainWalk | router/routes.go:9-74 | a chain of parameter children captures each segment under its name, in order |
| Fixtures.LettersSegmentwise | router/router_test.go:13-15 | the 21 segment names a..u are distinct plain segments and the seventh is "g" |
| Fixtures.FindSlashed | router/router.go:65 | a key that contains '/' inside is never found among one-segment keys |
| Fixtures.TestRootKeys | router/routes.go:4-196 | the GET root of the test table has the five children "/", nofunc, static, schemas and testing |
| Fixtures.TestUnder | router/routes.go:4-196 | a request under one of those children is walked inside that child |
| Fixtures.TestRootPath | router/routes.go:6-8 | GET "/" and GET "" return the root handler, and POST is ErrInvalidMethod |
| Fixtures.TestStaticChain | router/router_test.go:62-72 | a request along a static chain returns its handler |
| Fixtures.TestLongStatic | router/router_test.go:62-72 | the longStatic request returns the handler with no parameters |
| Fixtures.TestParamChain | router/router_test.go:42-60 | a request along the nofunc chain captures every segment |
| Fixtures.TestLongParam | router/router_test.go:42-60 | the longParam request returns the handler with a=a .. u=u, and Get("g") is "g" |
| Fixtures.ZipGet | router/router_test.go:53 | with distinct names, Get of a name in the zipped captures is that name's value |
| Fixtures.ArchivesWalk | router/routes.go:166-180 | year/month/day is captured when all three checks pass, and ErrRouteNotFound when the year or month fails |
| Fixtures.SchemasWalk | router/routes.go:162-183 | below schemas, the schema segment is captured, then archives is followed |
| Fixtures.SchemaCapture | router/routes.go:163-165 | the schemas node captures the next segment as schema |
| Fixtures.ArchivesKey | router/routes.go:165-166 | the schema node follows the literal archives |
| Fixtures.TestSchemaDate | router/router_test.go:22-40 | a schemas request yields schema, year, month and day in order when the checks pass, and ErrRouteNotFound when the year or month fails |
| Fixtures.SchemaRequest | router/router_test.go:22-40 | a schemas request is walked inside the archives node with the schema captured |
| Fixtures.TestShortParam | router/router_test.go:22-40 | the shortParam request returns the handler with schema=test, year=2015, month=02, day=12; month 13 is ErrRouteNotFound |
| Fixtures.TestingWalk | router/routes.go:184-194 | testing/hello has no handler (ErrRouteNotFound) and testing/hello/world has one |
| Fixtures.TestIntermediateNode | router/routes.go:184-194 | GET /testing/hello is ErrRouteNotFound and GET /testing/hello/world is found |
| Fixtures.TestParamsYear | router/params_test.go:46-50 | GetInt("year") of the shortParam captures is 2015 with no error |
| Fixtures.TestParamsDay | router/params_test.go:52-58 | Scan("day") into a []byte stores "12" with no error |
| Fixtures.TestParamsMonth | router/params_test.go:60-66 | Scan("month") into a 64-bit signed integer that is also a Scanner stores 2 from GetInt, so the Scanner is not called |
| Fixtures.WebsiteRootKeys | example/website/routes.go:5-31 | the website's GET root has the children hello, printnum and "/" |
| Fixtures.WebsiteUnder | example/website/routes.go:8-21 | a request under hello or printnum is walked inside that child |
| Fixtures.WebsiteHello | example/website/routes.go:9-14 | GET /hello/name returns hello with str=name |
| Fixtures.WebsitePrintNum | example/website/routes.go:15-21 | GET /printnum/n returns printnum with num=n exactly when validateNumber accepts n, else ErrRouteNotFound |
| Fixtures.WebsiteRequests | example/website/routes.go:5-31 | /, /hello/bob and /printnum/123 are served by index, hello and printnum; /printnum/abc is ErrRouteNotFound |
| Fixtures.WebsiteAddPrintNum | example/website/routes.go:15-30 | adding "printnum/$num" with the website validators builds exactly the printnum entry of the literal table |
| Fixtures.AddCoalescedExample | router/router.go:146-155 | adding "a/b/$x" succeeds, yet GET /a/b/foo is ErrRouteNotFound |
| Fixtures.AddAfterFailure | router/router.go:106-134 | a failed Add of "/x" leaves an empty GET root, so the next GET Add dereferences the nil cursor |
| Routify.Lookup | routify.go:114-127 | a missing PARAMS binding reads as "" and a present one as its value |
| Routify.Turn | routify.go:110-118 | a '$' segment bound in PARAMS goes to funcs under its bare name; every other segment, an unbound '$' one included, goes to table as written |
| Routify.Insert | routify.go:105-135 | the only error the walk returns is errInvalidPath |
| Routify.AddSpec | routify.go:89-138 | after add, the method has a root, even when add fails |
| Routify.Step | routify.go:105-128 | one turn of the loop moves the cursor into the child Turn picks |
| Routify.StoreRoot | routify.go:90-96 | creating the method root on demand and then storing the new root is storing it directly |
| Routify.InsertError | routify.go:105-108 | the walk fails with errInvalidPath exactly when an empty segment remains |
| Routify.InsertKeeps | routify.go:105-135 | a failing first segment changes nothing; otherwise the node keeps its check, its handle and its other map, and every other key in the map it used |
| Routify.CheckKept | routify.go:126-128 | insertion below a node never changes that node's own check |
| Routify.InsertPlaces | routify.go:110-128 | a bound '$name' segment creates funcs["name"] with check params[name]; any other segment creates table[segment], whose check is params[segment] when it starts with '$' |
| Routify.InsertReach | routify.go:105-135 | after inserting a path without empty segments, following it reaches a node holding the handle; a final '$' segment also carries its check |
| Routify.AddError | routify.go:99-108 | add fails exactly when the split path has an empty segment |
| Routify.AddReach | routify.go:89-138 | after a successful add, following the path from the method root reaches the handle |
| Routify.AddKeepsOthers | routify.go:89-92 | add never changes the root of another method |
| Routify.AddTwice | routify.go:120-134 | adding the same path again reuses the nodes and the second handle wins |
| Routify.RouteTable.constructor | routify.go:197 | a new table has no bindings and no roots |
| Routify.RouteTable.Add | routify.go:89-138 | the cursor loop leaves the table and error exactly as AddSpec says and the bindings untouched |
| Routify.RouteTable.ScanKeyed | routify.go:209-229 | the pair loop of a PARAMS or method entry gathers exactly what KeyedFrom says, leaving the roots untouched |
| Routify.Buffer.constructor | routify.go:66 | a new buffer is empty |
| Routify.Buffer.WriteString | routify.go:82 | writing appends the string to the buffer |
| Routify.RuleText | routify.go:140-172 | a rule opens with its quoted key and `&router.Route{` and ends with "}," |
| Routify.RuleTableField | routify.go:151-159 | the rule of a node with literal keys carries the title "Table: router.Routes{" right after its header and fields, a field `router.Route` does not declare |
| Routify.RuleFuncsField | routify.go:161-169 | the rule of a node with parameter bindings carries the title "Funcs: router.Routes{" after its Table block, a field `router.Route` does not declare |
| Routify.BlockTitle | routify.go:151-169 | the block of a non-empty map starts with its title |
| Routify.WriteRule | routify.go:140-172 | the buffer grows by exactly the rule text of the node: header, HandlerFunc and Check when set, then the Table and Funcs blocks when non-empty |
| Routify.WriteBlock | routify.go:151-169 | the buffer grows by the block of one map: its title, each child's rule in order, and the closing "}," |
| Routify.DepthAppend | routify.go:140-172 | the brace depth of a concatenation is the sum of the depths |
| Routify.OpeningDepth | routify.go:141 | the rule header opens one brace, the closing "}," closes one |
| Routify.FieldsDepth | routify.go:143-149 | the HandlerFunc and Check fields leave the depth unchanged |
| Routify.TitleDepth | routify.go:152-162 | each block title opens one brace |
| Routify.RuleBalanced | routify.go:140-172 | the rule of a node whose keys and names have no braces is brace-balanced |
| Routify.BlockBalanced | routify.go:151-169 | each Table or Funcs block is brace-balanced |
| Routify.ListingBalanced | routify.go:154-156 | the rules of the first n children together are brace-balanced |
| Routify.Load | routify.go:195-264 | loadRoutes' only error is errInvalidPath, and it comes exactly when a gathered path has an empty segment |
| Routify.LoadRoutes | routify.go:195-264 | returns a nil table and the first add error, or the table whose bindings are all the PARAMS pairs and whose roots are Load's |
| Routify.ScanPath | routify.go:238-254 | the pair loop of a path entry gathers exactly what PathFrom says |
| Routify.Generate | routify.go:42-87 | main ends exactly as GenerateSpec says |
| Routify.WriteFile | routify.go:66-82 | the printed file is the header, the rules of the roots and the footer |
| Routify.WriteRoots | routify.go:74-80 | the root loop prints every non-bare root's rule in order and skips bare ones |
| Routify.KeyedLines | routify.go:209-229 | a keyed entry only appends lines, all with a method name; a PARAMS entry adds no line and a method entry adds no binding |
| Routify.PathLines | routify.go:238-254 | a path entry only appends lines, each with a method name and the entry's path |
| Routify.ClassifyLines | routify.go:200-256 | classification only appends lines, and only with method names |
| Routify.Classify | routify.go:200-256 | every gathered line names one of GET, POST, PUT, PATCH, DELETE, OPTIONS or HELP |
| Routify.RouteTable.AddAll | routify.go:258-262 | the add loop leaves the bindings alone and ends with the roots and error of AddAllFrom: lines are added in order and the first error stops it |
| Routify.AddAllError | routify.go:258-262 | the add loop fails exactly when some remaining line's path has an empty segment |
| Routify.GenerateSpec | routify.go:46-64 | main stops fatally exactly when a flag is missing or a gathered path has an empty segment, and with the flags set the error is errInvalidPath |
| Routify.BareSkipped | routify.go:74-77 | roots without children print nothing |
| Routify.RulesBalanced | routify.go:74-80 | the rules of all roots together are brace-balanced |
| Routify.FooterDepth | routify.go:82 | the footer closes one brace |
| Routify.HeaderDepth | routify.go:68-72 | the header opens exactly one brace when the package and variable names have none |
| Routify.FileBalanced | routify.go:68-82 | the whole generated file is brace-balanced when no name in it has a brace |
| RoutifyFixtures.AddLeadingSlash | routify.go:89-108 | a path with a leading '/' fails with errInvalidPath, and the method's root stays made |
| RoutifyFixtures.InsertOne | routify.go:105-135 | a one-segment path creates one child, sets its check when it is a '$' segment, and gives it the handle |
| RoutifyFixtures.AddRootPath | routify.go:99-103 | the path "/" is the single segment "/" |
| RoutifyFixtures.AddUnboundParam | routify.go:110-128 | an unbound "$x" lands in table as "$x" with an empty check |
| RoutifyFixtures.AddBoundParam | routify.go:113-128 | a bound "$id" lands in funcs as "id" with check params["id"] |
| RoutifyFixtures.LateParams | routify.go:200-256 | a PARAMS entry that comes after a path entry still binds, because all lines are added after classification |
| RoutifyFixtures.ParamsAfterRoute | routify.go:195-264 | a route "$id" read before its PARAMS binding still goes to funcs with check isID |
| RoutifyFixtures.LeadingSlashFatal | routify.go:60-64 | a routes file with a path "/users" makes main fail with errInvalidPath |

## Left out

- The `net/http` types are not modelled. A request is its method and URL path. A handler is a natural-number id. ServeHTTP's ResponseWriter is the `Reply` value. Calling the handler is `Invoke`.
- Reflection in `Params.Scan` is modelled as the `Target` datatype. It covers *string, *[]byte, non-pointers, pointers to sized integers, and other pointers with a flag saying whether they implement Scanner.
- The floating-point branch of `Params.Scan` (router/params.go:103-112) is not modelled, because there is no floating point. `Target` has no case for a float destination, so such a destination is outside the model.
- `Params.Scan`: the destination's own Scan method is user code. Its error is a parameter, and the call is recorded in `scanned`.
- Go's `int` and `uint` are taken to be 64 bits wide.
- `Router.Add` with a nil HandlerFunc is not modelled: `Handler` is a natural-number id and Add always stores `Some(h)`. In Go, adding a nil handler leaves a node that Get reports as ErrRouteNotFound.
- Go's nil pointers are not values in the model. A nil dereference and an index out of range are modelled as the `Panic` outcome.
- GoStrings.ToUpper: models `strings.ToUpper` on ASCII letters only. Go also maps non-ASCII letters ("paramſ" becomes "PARAMS"), and loadRoutes upper-cases every YAML key, so a key with such a letter is classified differently in Go than in the model.
- `strconv.ParseInt` and `strconv.ParseUint` are modelled for base 10 and 64 bits only. Those are the only arguments this code passes. Underscores, base prefixes and other bases are not modelled.
- The order of Go map iteration is not specified. The model iterates in sequence order, which is one order `range` may produce. The YAML document is modelled as a sequence of pairs for the same reason.
- Pointers into the trie are not modelled. The nodes are values, and the Add, Get and add loops keep a zipper of frames, rebuilding the root when they leave. Aliasing between two Route pointers therefore does not exist in the model.
- In routify.go:
  - Flag parsing and the log flags (routify.go:20-27, 43-44) are not modelled; the flag values are parameters.
  - Opening and truncating the output file, reading the input file and `yaml.Unmarshal` (routify.go:52-58, 84-86, 175-193) are not modelled. The decoded document is a parameter. Errors from these steps are not modelled.
  - `log.Fatal` is the `Fatal` result of main.
  - The output file is created and truncated before the routes are loaded, so a failing load leaves it empty; this is not modelled.
- `fmt.Fprintf` with `%s` is string concatenation.
- The two `errInvalidPath` values are distinct `errors.New` values with the same text: `router.ErrInvalidPath` at router/router.go:14, and routify's own in routify.go's variable block. Both are modelled as `ErrInvalidPath`.
- routify's unused `errInvalidInput` variable is not modelled.
- The benchmarks in router/router_test.go are not modelled.
- router/generate.go and example/server.go (a `go:generate` line and a demo server main) are not part of this model.
- Routify.Insert: the model also defines the walk for an empty segment list. `add` never meets that case, because splitting always yields at least one segment.
- The generator emits `Table:` and `Funcs:` fields and a `router.Routes` variable (routify.go:68-72, 152, 162). The `router.Route` type has `Param`, `Check`, `HandlerFunc`, `Child` and `Children` (router/router.go:34-40). The model prints the text the code writes; `Routify.RuleTableField` and `Routify.RuleFuncsField` show that those field names are in it. It does not claim the output compiles against the router.
- loadRoutes follows the code, not the prose:
  - In a PARAMS or method section, a non-string key or value ends the section's loop (`break`); it does not skip the pair.
  - In a path section, a non-string key ends the loop, while a non-method key or a non-string value is skipped.
  - Method names in a path section must already be upper case.
  - A file that yields no usable route is not an error; it produces a file with no rules.
