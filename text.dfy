/** String helpers shared by the intake form and the record store mapping:
    the whitespace set that JavaScript's `trim()` and the regular-expression
    class `\s` both use, `trim()` itself, joining a list with ',' and splitting
    it back, and upper-casing one character. Strings are `seq<char>`. */
module Text {

  /** ECMAScript WhiteSpace and LineTerminator code points: the characters
      `String.prototype.trim` removes and `\s` matches. */
  predicate IsSpace(c: char)
  {
    || c == '\t' || c == '\n' || c == '\U{000B}' || c == '\U{000C}' || c == '\r'
    || c == ' ' || c == '\U{00A0}' || c == '\U{1680}'
    || ('\U{2000}' <= c <= '\U{200A}')
    || c == '\U{2028}' || c == '\U{2029}' || c == '\U{202F}' || c == '\U{205F}'
    || c == '\U{3000}' || c == '\U{FEFF}'
  }

  /** Every character of `s` is whitespace (vacuously true of ""). */
  predicate AllSpace(s: string)
  {
    forall i :: 0 <= i < |s| ==> IsSpace(s[i])
  }

  /** No character of `s` is whitespace. */
  predicate NoSpace(s: string)
  {
    forall i :: 0 <= i < |s| ==> !IsSpace(s[i])
  }

  /** Number of whitespace characters at the start of `s`. */
  function LeadingSpaces(s: string): (n: nat)
    ensures n <= |s|
    ensures AllSpace(s[..n])
    ensures n < |s| ==> !IsSpace(s[n])
  {
    if |s| == 0 || !IsSpace(s[0]) then 0
    else
      var n := 1 + LeadingSpaces(s[1..]);
      assert s[1..][..n - 1] == s[1..n];
      n
  }

  /** Number of whitespace characters at the end of `s`. */
  function TrailingSpaces(s: string): (n: nat)
    ensures n <= |s|
    ensures AllSpace(s[|s| - n..])
    ensures n < |s| ==> !IsSpace(s[|s| - 1 - n])
  {
    if |s| == 0 || !IsSpace(s[|s| - 1]) then 0
    else
      var n := 1 + TrailingSpaces(s[..|s| - 1]);
      assert s[..|s| - 1][|s| - 1 - (n - 1)..] == s[|s| - n..|s| - 1];
      var tail := s[|s| - n..];
      assert AllSpace(tail) by {
        forall i | 0 <= i < n ensures IsSpace(tail[i]) {
          if i < n - 1 {
            assert tail[i] == s[|s| - n..|s| - 1][i];
          }
        }
      }
      n
  }

  /** JavaScript's `s.trim()`: `s` without its leading and trailing whitespace. */
  function Trim(s: string): (r: string)
    ensures |r| <= |s|
    ensures r == [] <==> AllSpace(s)
    ensures r != [] ==> !IsSpace(r[0]) && !IsSpace(r[|r| - 1])
  {
    var t := s[LeadingSpaces(s)..];
    var r := t[..|t| - TrailingSpaces(t)];
    assert r == [] ==> AllSpace(s) by {
      assert r == [] ==> s[..LeadingSpaces(s)] == s;
    }
    r
  }

  /** `s.trim()` is empty, i.e. `!s.trim()` holds in JavaScript. */
  predicate IsBlank(s: string)
  {
    Trim(s) == []
  }

  /** Cutting a whitespace tail off the suffix `s[l..]` leaves a slice of
      `s`, followed in `s` by that same whitespace. */
  lemma SuffixCut(s: string, l: nat, m: nat)
    requires l <= |s| && m <= |s| - l
    requires AllSpace(s[l..][m..])
    ensures s[l..][..m] == s[l..l + m]
    ensures AllSpace(s[l + m..])
  {
    assert s[l..][m..] == s[l + m..];
  }

  /** The trimmed text is the middle of `s`: what is cut before it is the
      leading whitespace and what is cut after it is whitespace too. */
  lemma TrimIsMiddle(s: string)
    ensures var l := LeadingSpaces(s); var e := l + |Trim(s)|;
      && e <= |s|
      && Trim(s) == s[l..e]
      && AllSpace(s[..l])
      && AllSpace(s[e..])
  {
    var l := LeadingSpaces(s);
    var t := s[l..];
    var m := |t| - TrailingSpaces(t);
    assert Trim(s) == t[..m];
    SuffixCut(s, l, m);
    assert |Trim(s)| == m;
  }

  /** A string without whitespace at either end is its own trimmed text. */
  lemma TrimNoOuterSpace(s: string)
    requires s != [] ==> !IsSpace(s[0]) && !IsSpace(s[|s| - 1])
    ensures Trim(s) == s
  {
    assert LeadingSpaces(s) == 0;
    assert TrailingSpaces(s) == 0;
  }

  /** Trimming is idempotent. */
  lemma TrimIdempotent(s: string)
    ensures Trim(Trim(s)) == Trim(s)
  {
    TrimNoOuterSpace(Trim(s));
  }

  /** Index of the first `c` in `s`, or `|s|` when there is none (JavaScript's
      `indexOf`, with "absent" reported as the length instead of -1). */
  function IndexOf(s: string, c: char): (k: nat)
    ensures k <= |s|
    ensures forall i :: 0 <= i < k ==> s[i] != c
    ensures k < |s| ==> s[k] == c
  {
    if |s| == 0 then 0
    else if s[0] == c then 0
    else 1 + IndexOf(s[1..], c)
  }

  /** `xs.join(',')`. */
  function Join(xs: seq<string>): (r: string)
    ensures xs == [] ==> r == []
    ensures |xs| == 1 ==> r == xs[0]
  {
    if |xs| == 0 then []
    else if |xs| == 1 then xs[0]
    else xs[0] + [','] + Join(xs[1..])
  }

  /** `s.split(',')`: the maximal comma-free pieces of `s`, at least one. */
  function Split(s: string): (parts: seq<string>)
    ensures |parts| >= 1
    ensures forall j :: 0 <= j < |parts| ==> ',' !in parts[j]
    decreases |s|
  {
    var k := IndexOf(s, ',');
    if k == |s| then [s]
    else [s[..k]] + Split(s[k + 1..])
  }

  /** The first comma of `x + "," + rest` is the one after `x` when `x` has none. */
  lemma FirstCommaAfter(x: string, rest: string)
    requires forall i :: 0 <= i < |x| ==> x[i] != ','
    ensures IndexOf(x + [','] + rest, ',') == |x|
  {
    var s := x + [','] + rest;
    assert forall i :: 0 <= i < |x| ==> s[i] == x[i];
    assert s[|x|] == ',';
  }

  /** Splitting the joined list gives the list back when it is non-empty and
      no item holds a comma. */
  lemma {:induction false} SplitJoin(xs: seq<string>)
    requires xs != []
    requires forall j :: 0 <= j < |xs| ==> ',' !in xs[j]
    ensures Split(Join(xs)) == xs
  {
    var x := xs[0];
    if |xs| == 1 {
      assert IndexOf(x, ',') == |x| by {
        assert forall i :: 0 <= i < |x| ==> x[i] != ',';
      }
    } else {
      var rest := Join(xs[1..]);
      var s := x + [','] + rest;
      assert Join(xs) == s;
      assert Split(s) == [x] + Split(rest) by {
        assert forall i :: 0 <= i < |x| ==> x[i] != ',';
        FirstCommaAfter(x, rest);
        assert s[..|x|] == x;
        assert s[|x| + 1..] == rest;
      }
      SplitJoin(xs[1..]);
      assert xs == [x] + xs[1..];
    }
  }

  /** The one list the round trip cannot recover: `[].join(',')` is "" and
      "".split(',') is `[""]`. */
  lemma EmptyJoinSplitsToOneEmptyItem()
    ensures Split(Join([])) == [[]]
  {
  }

  /** JavaScript's `toUpperCase()` on one character, for the ASCII letters. */
  function UpperAscii(c: char): (u: char)
    ensures 'a' <= c <= 'z' ==> 'A' <= u <= 'Z' && u as int == c as int - 32
    ensures !('a' <= c <= 'z') ==> u == c
  {
    if 'a' <= c <= 'z' then (c as int - 32) as char else c
  }
}
