/**
 * The validators and the literal-run helper of router/util.go. A byte is
 * compared as its numeric value: 47 is '/', 48 is '0', 49 is '1', 51 is '3',
 * 57 is '9' and 58 is ':'.
 */
module Util {
  import opened Errors
  import opened GoStrings

  // ----- IsYear -----

  /** `s[j] < 58 && s[j+1] > 47`, evaluated left to right with short circuit; reading past the end panics. */
  function Pair(s: string, j: nat): Outcome<bool>
  {
    if j >= |s| then Panic(IndexOutOfRange)
    else if s[j] as int >= 58 then Ok(false)
    else if j + 1 >= |s| then Panic(IndexOutOfRange)
    else Ok(s[j + 1] as int > 47)
  }

  /**
   * IsYear as written. Go's `&&` binds tighter than `||`, so the expression is
   *   (len(s) == 4 && s[0] > 47) || (s[0] < 58 && s[1] > 47) ||
   *   (s[1] < 58 && s[2] > 47) || (s[2] < 58 && s[3] > 47) || s[3] < 58
   * and only the first disjunct is guarded by the length test.
   */
  function IsYear(s: string): (r: Outcome<bool>)
    ensures !r.Fail?
    ensures |s| >= 4 ==> r.Ok?
  {
    if |s| == 4 && s[0] as int > 47 then Ok(true)
    else match Pair(s, 0)
      case Panic(f) => Panic(f)
      case Fail(e) => Fail(e)
      case Ok(b0) => if b0 then Ok(true) else match Pair(s, 1)
        case Panic(f) => Panic(f)
        case Fail(e) => Fail(e)
        case Ok(b1) => if b1 then Ok(true) else match Pair(s, 2)
          case Panic(f) => Panic(f)
          case Fail(e) => Fail(e)
          case Ok(b2) => if b2 then Ok(true) else if 3 >= |s| then Panic(IndexOutOfRange) else Ok(s[3] as int < 58)
  }

  /** Every 4-byte string is a "year", "abcd" included. */
  lemma IsYearFourBytes(s: string)
    requires |s| == 4
    ensures IsYear(s) == Ok(true)
  {
  }

  /**
   * IsYear answers false only for strings of 5 bytes or more whose first four
   * bytes are all 58 or above; a string of at most one byte makes it read
   * out of range.
   */
  lemma IsYearFalse(s: string)
    ensures IsYear(s) == Ok(false) <==> |s| >= 5 && forall j :: 0 <= j < 4 ==> s[j] as int >= 58
    ensures |s| <= 1 ==> IsYear(s) == Panic(IndexOutOfRange)
  {
    if |s| >= 5 && forall j :: 0 <= j < 4 ==> s[j] as int >= 58 {
      assert s[0] as int >= 58 && s[1] as int >= 58 && s[2] as int >= 58 && s[3] as int >= 58;
    }
  }

  // ----- IsMonth and IsDay -----

  /** IsMonth as written: two bytes, the first at most '1', the second at most '9', not "00", and then below 13. */
  predicate IsMonth(s: string): (r: bool)
    ensures r ==> |s| == 2 && s != "00"
  {
    if |s| != 2 || s[0] as int > 49 || s[1] as int > 57 || (s[0] as int == 48 && s[1] as int == 48) then false
    else s[0] as int == 48 || s[1] as int < 51
  }

  /** IsDay as written: two bytes, the first at most '3', the second at most '9', not "00", and then below 32. */
  predicate IsDay(s: string): (r: bool)
    ensures r ==> |s| == 2 && s != "00"
  {
    if |s| != 2 || s[0] as int > 51 || s[1] as int > 57 || (s[0] as int == 48 && s[1] as int == 48) then false
    else s[0] as int < 51 || s[1] as int < 50
  }

  /** A two-byte string of ASCII digits. */
  predicate DigitPair(s: string)
  {
    |s| == 2 && '0' <= s[0] <= '9' && '0' <= s[1] <= '9'
  }

  /** The number two ASCII digits spell. */
  function PairValue(s: string): int
    requires DigitPair(s)
  {
    (s[0] as int - 48) * 10 + (s[1] as int - 48)
  }

  /** Over digit pairs IsMonth accepts exactly "01" to "12"; any other length is rejected. */
  lemma IsMonthDigits(s: string)
    ensures DigitPair(s) ==> (IsMonth(s) <==> 1 <= PairValue(s) <= 12)
    ensures |s| != 2 ==> !IsMonth(s)
  {
  }

  /** Over digit pairs IsDay accepts exactly "01" to "31"; any other length is rejected. */
  lemma IsDayDigits(s: string)
    ensures DigitPair(s) ==> (IsDay(s) <==> 1 <= PairValue(s) <= 31)
    ensures |s| != 2 ==> !IsDay(s)
  {
  }

  /** Neither validator has a lower bound on its bytes: some pairs that are not numbers pass. */
  lemma NonDigitPairsAccepted()
    ensures IsMonth("0/") && IsMonth("1!") && IsDay("0/") && IsDay("3 ")
    ensures !DigitPair("0/")
  {
  }

  // ----- staticPath -----

  /**
   * The segments staticPath visits and keeps: the longest prefix of p whose
   * segments do not start with '$'. Reading the first byte of a visited empty
   * segment panics.
   */
  function LiteralRun(p: seq<string>): (r: Outcome<seq<string>>)
    ensures !r.Fail?
    ensures r.Ok? ==> |r.value| <= |p|
    ensures r.Ok? && p != [] && p[0] != "" && p[0][0] != '$' ==> |r.value| >= 1
    ensures r.Panic? ==> r.fault == IndexOutOfRange
  {
    if p == [] then Ok([])
    else if p[0] == "" then Panic(IndexOutOfRange)
    else if p[0][0] == '$' then Ok([])
    else match LiteralRun(p[1..])
      case Ok(run) => Ok([p[0]] + run)
      case Panic(f) => Panic(f)
      case Fail(e) => Fail(e)
  }

  /**
   * The run staticPath keeps is a prefix of p made of literal segments, it
   * stops only at a parameter segment, and it is never empty when p starts
   * with a literal segment.
   */
  lemma {:induction false} LiteralRunShape(p: seq<string>)
    ensures var r := LiteralRun(p);
      && (r.Ok? ==> r.value == p[..|r.value|])
      && (r.Ok? ==> forall j :: 0 <= j < |r.value| ==> r.value[j] != "" && r.value[j][0] != '$')
      && (r.Ok? && |r.value| < |p| ==> p[|r.value|] != "" && p[|r.value|][0] == '$')
  {
    if p != [] && p[0] != "" && p[0][0] != '$' {
      LiteralRunShape(p[1..]);
      var r := LiteralRun(p);
      if r.Ok? {
        var run := LiteralRun(p[1..]).value;
        assert r.value == [p[0]] + run;
        assert p == [p[0]] + p[1..];
      }
    }
  }

  /** staticPath panics exactly when an empty segment comes before any parameter segment. */
  lemma {:induction false} LiteralRunPanics(p: seq<string>)
    ensures LiteralRun(p).Panic? <==> exists j :: 0 <= j < |p| && p[j] == "" && forall i :: 0 <= i < j ==> p[i] != "" && p[i][0] != '$'
  {
    if p != [] && p[0] != "" && p[0][0] != '$' {
      LiteralRunPanics(p[1..]);
      if LiteralRun(p).Panic? {
        var j :| 0 <= j < |p[1..]| && p[1..][j] == "" && forall i :: 0 <= i < j ==> p[1..][i] != "" && p[1..][i][0] != '$';
        assert p[j + 1] == "";
      } else {
        forall j | 0 <= j < |p| && p[j] == "" ensures exists i :: 0 <= i < j && !(p[i] != "" && p[i][0] != '$') {
          assert j > 0;
          assert p[1..][j - 1] == "";
          var i :| 0 <= i < j - 1 && !(p[1..][i] != "" && p[1..][i][0] != '$');
          assert p[i + 1] == p[1..][i];
        }
      }
    } else if p != [] {
      assert p[0] == "" ==> LiteralRun(p).Panic?;
    }
  }

  /** What staticPath returns for a run: the segments joined by '/', and their number minus one. */
  function JoinedRun(r: Outcome<seq<string>>): Outcome<(string, int)>
  {
    match r
    case Ok(run) => Ok((Join(run, '/'), |run| - 1))
    case Fail(e) => Fail(e)
    case Panic(f) => Panic(f)
  }

  /** Joining one more segment onto a non-empty run adds '/' and the segment. */
  lemma {:induction false} JoinSnoc(run: seq<string>, v: string)
    requires |run| >= 1
    ensures Join(run + [v], '/') == Join(run, '/') + "/" + v
  {
    if |run| > 1 {
      assert (run + [v])[1..] == run[1..] + [v];
      JoinSnoc(run[1..], v);
    }
  }

  /** staticPath: joins the literal prefix of p with '/' and counts it, -1 when p starts with a parameter. */
  method StaticPath(p: seq<string>) returns (r: Outcome<(string, int)>)
    ensures r == JoinedRun(LiteralRun(p))
  {
    var s := "";
    var c := -1;
    var i := 0;
    assert p[..0] == [] && p[0..] == p;
    PrefixedNothing(LiteralRun(p));
    while i < |p|
      invariant 0 <= i <= |p|
      invariant c == i - 1
      invariant s == Join(p[..i], '/')
      invariant forall j :: 0 <= j < i ==> p[j] != "" && p[j][0] != '$'
      invariant LiteralRun(p) == Prefixed(p[..i], LiteralRun(p[i..]))
    {
      var v := p[i];
      if |v| == 0 {
        return Panic(IndexOutOfRange);
      }
      if v[0] == '$' {
        break;
      }
      if i > 0 {
        s := s + "/";
      }
      JoinStep(p, i);
      s := s + v;
      c := c + 1;
      PrefixedStep(p, i);
      i := i + 1;
    }
    assert i < |p| ==> LiteralRun(p[i..]) == Ok([]);
    assert p[..i] + [] == p[..i];
    r := Ok((s, c));
  }

  lemma PrefixedNothing(r: Outcome<seq<string>>)
    ensures Prefixed([], r) == r
  {
    if r.Ok? {
      assert [] + r.value == r.value;
    }
  }

  /** `prefix` in front of the run found after it. */
  function Prefixed(prefix: seq<string>, r: Outcome<seq<string>>): Outcome<seq<string>>
  {
    match r
    case Ok(run) => Ok(prefix + run)
    case Fail(e) => Fail(e)
    case Panic(f) => Panic(f)
  }

  lemma JoinStep(p: seq<string>, i: nat)
    requires i < |p|
    ensures Join(p[..i + 1], '/') == if i == 0 then p[i] else Join(p[..i], '/') + "/" + p[i]
  {
    assert p[..i + 1] == p[..i] + [p[i]];
    if i > 0 {
      JoinSnoc(p[..i], p[i]);
    }
  }

  lemma PrefixedStep(p: seq<string>, i: nat)
    requires i < |p| && p[i] != "" && p[i][0] != '$'
    ensures Prefixed(p[..i], LiteralRun(p[i..])) == Prefixed(p[..i + 1], LiteralRun(p[i + 1..]))
  {
    assert p[i..][1..] == p[i + 1..];
    assert p[..i + 1] == p[..i] + [p[i]];
    match LiteralRun(p[i + 1..])
    case Ok(run) =>
      assert p[..i] + ([p[i]] + run) == p[..i + 1] + run;
    case _ =>
  }
}
