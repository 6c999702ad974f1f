/**
 * The parts of Go's `strings` package the router relies on. A Go string is a
 * sequence of bytes; here each `char` of a `string` stands for one byte, and
 * no function below decodes UTF-8.
 */
module GoStrings {

  /** `strings.IndexByte(s, b)`: the index of the first b in s, or -1. */
  function IndexByte(s: string, b: char): (i: int)
    ensures -1 <= i < |s|
    ensures i == -1 ==> b !in s
    ensures i >= 0 ==> s[i] == b && b !in s[..i]
  {
    if s == [] then -1
    else if s[0] == b then 0
    else
      var j := IndexByte(s[1..], b);
      if j == -1 then -1 else j + 1
  }

  /** `strings.Join(parts, string(sep))`. */
  function Join(parts: seq<string>, sep: char): string
  {
    if |parts| == 0 then ""
    else if |parts| == 1 then parts[0]
    else parts[0] + [sep] + Join(parts[1..], sep)
  }

  /**
   * `strings.Split(s, string(sep))`: the pieces between separators. There is
   * always at least one piece, joining the pieces gives s back, and no piece
   * holds the separator.
   */
  function Split(s: string, sep: char): (parts: seq<string>)
    ensures |parts| >= 1
    ensures Join(parts, sep) == s
    ensures forall j :: 0 <= j < |parts| ==> sep !in parts[j]
    decreases |s|
  {
    var i := IndexByte(s, sep);
    if i == -1 then [s]
    else
      var rest := Split(s[i + 1..], sep);
      assert s == s[..i] + [sep] + s[i + 1..];
      [s[..i]] + rest
  }

  /** Splitting undoes joining pieces that do not hold the separator. */
  lemma {:induction false} SplitJoin(parts: seq<string>, sep: char)
    requires |parts| >= 1
    requires forall j :: 0 <= j < |parts| ==> sep !in parts[j]
    ensures Split(Join(parts, sep), sep) == parts
  {
    if |parts| > 1 {
      var tail := Join(parts[1..], sep);
      var s := parts[0] + [sep] + tail;
      assert Join(parts, sep) == s;
      assert IndexByte(s, sep) == |parts[0]| by {
        IndexByteAfter(parts[0], sep, tail);
      }
      assert s[|parts[0]| + 1..] == tail;
      assert s[..|parts[0]|] == parts[0];
      SplitJoin(parts[1..], sep);
      assert parts == [parts[0]] + parts[1..];
    } else {
      IndexByteAbsent(parts[0], sep);
    }
  }

  /** A string without b has no index of b. */
  lemma IndexByteAbsent(s: string, b: char)
    requires b !in s
    ensures IndexByte(s, b) == -1
  {
  }

  /** The first b of `a + [b] + t`, when a holds no b, sits right after a. */
  lemma {:induction false} IndexByteAfter(a: string, b: char, t: string)
    requires b !in a
    ensures IndexByte(a + [b] + t, b) == |a|
  {
    if a != [] {
      assert (a + [b] + t)[1..] == a[1..] + [b] + t;
      IndexByteAfter(a[1..], b, t);
    }
  }

  /** The ASCII upper case of one byte; other bytes are unchanged. */
  function UpperByte(c: char): char
  {
    if 'a' <= c <= 'z' then (c as int - 32) as char else c
  }

  /** `strings.ToUpper` restricted to ASCII: every lower-case letter is raised, every other byte kept. */
  function ToUpper(s: string): (r: string)
    ensures |r| == |s|
    ensures forall i :: 0 <= i < |r| ==> !('a' <= r[i] <= 'z')
    ensures forall i :: 0 <= i < |s| ==> r[i] == s[i] || ('a' <= s[i] <= 'z' && r[i] as int == s[i] as int - 32)
  {
    seq(|s|, i requires 0 <= i < |s| => UpperByte(s[i]))
  }

  /** Upper-casing twice is upper-casing once. */
  lemma ToUpperIdempotent(s: string)
    ensures ToUpper(ToUpper(s)) == ToUpper(s)
  {
    ToUpperNoLower(ToUpper(s));
  }

  /** A string without lower-case ASCII letters is its own upper case. */
  lemma ToUpperNoLower(s: string)
    requires forall i :: 0 <= i < |s| ==> !('a' <= s[i] <= 'z')
    ensures ToUpper(s) == s
  {
    var r := ToUpper(s);
    assert forall i :: 0 <= i < |s| ==> r[i] == s[i];
  }
}
