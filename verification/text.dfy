/** String operations the session relies on: JavaScript's `trim`, `slice(0, n)` and a
    global single-character `replace`, each defined over `seq<char>`. */
module Text {

  /** The characters `String.prototype.trim` strips: the ECMAScript WhiteSpace and
      LineTerminator code points, written out one by one. */
  predicate IsWhitespace(c: char) {
    c == '\t' || c == '\n' || c == '\U{000B}' || c == '\U{000C}' || c == '\r' || c == ' '
    || c == '\U{00A0}' || c == '\U{1680}' || ('\U{2000}' <= c <= '\U{200A}')
    || c == '\U{2028}' || c == '\U{2029}' || c == '\U{202F}' || c == '\U{205F}'
    || c == '\U{3000}' || c == '\U{FEFF}'
  }

  predicate AllWhitespace(s: string) {
    forall i :: 0 <= i < |s| ==> IsWhitespace(s[i])
  }

  /** Number of whitespace characters at the front of `s`. */
  function LeadingSpace(s: string): (n: nat)
    ensures n <= |s|
    ensures AllWhitespace(s[..n])
    ensures n < |s| ==> !IsWhitespace(s[n])
  {
    if s != [] && IsWhitespace(s[0]) then
      var m := LeadingSpace(s[1..]);
      assert s[..1 + m] == [s[0]] + s[1..][..m];
      1 + m
    else 0
  }

  /** Number of whitespace characters at the back of `s`. */
  function TrailingSpace(s: string): (n: nat)
    ensures n <= |s|
    ensures AllWhitespace(s[|s| - n..])
    ensures n < |s| ==> !IsWhitespace(s[|s| - 1 - n])
  {
    if s != [] && IsWhitespace(s[|s| - 1]) then
      var init := s[..|s| - 1];
      var m := TrailingSpace(init);
      assert s[|s| - (1 + m)..] == init[|init| - m..] + [s[|s| - 1]];
      1 + m
    else 0
  }

  /** `s.trim()`: drops the leading and then the trailing whitespace of `s`. */
  function Trim(s: string): (r: string)
    ensures |r| <= |s|
  {
    var rest := s[LeadingSpace(s)..];
    rest[..|rest| - TrailingSpace(rest)]
  }

  /** What `trim` promises: the result is the infix of `s` left after cutting only
      whitespace from either side, it neither starts nor ends with whitespace, and it is
      empty exactly when `s` is all whitespace. */
  lemma {:induction false} TrimSpec(s: string)
    ensures Trim(s) == [] <==> AllWhitespace(s)
    ensures Trim(s) != [] ==> !IsWhitespace(Trim(s)[0]) && !IsWhitespace(Trim(s)[|Trim(s)| - 1])
    ensures exists i :: 0 <= i <= |s| - |Trim(s)| && Trim(s) == s[i..i + |Trim(s)|]
                        && AllWhitespace(s[..i]) && AllWhitespace(s[i + |Trim(s)|..])
  {
    var a := LeadingSpace(s);
    var rest := s[a..];
    var b := TrailingSpace(rest);
    var r := Trim(s);
    assert r == rest[..|rest| - b];
    assert r == s[a..a + |r|] && AllWhitespace(s[..a]) && AllWhitespace(s[a + |r|..]) by {
      assert s[a + |r|..] == rest[|rest| - b..];
    }
    assert r == [] ==> AllWhitespace(s) by {
      if r == [] {
        // Nothing is left between the two runs, so `s` is the leading run followed by
        // the trailing run.
        assert AllWhitespace(rest) by {
          assert rest[|rest| - b..] == rest;
        }
        assert s == s[..a] + rest;
      }
    }
    assert AllWhitespace(s) ==> r == [] by {
      if AllWhitespace(s) {
        assert a == |s|;
      }
    }
    assert r != [] ==> !IsWhitespace(r[0]) && !IsWhitespace(r[|r| - 1]) by {
      if r != [] {
        assert r[0] == rest[0];
        assert r[|r| - 1] == rest[|rest| - 1 - b];
      }
    }
  }

  /** Trimming twice is trimming once. */
  lemma {:induction false} TrimIdempotent(s: string)
    ensures Trim(Trim(s)) == Trim(s)
  {
    var r := Trim(s);
    if r != [] {
      assert LeadingSpace(r) == 0;
      assert TrailingSpace(r) == 0;
      assert r[..|r|] == r;
    }
  }

  /** `s.slice(0, n)` for `n >= 0`: the first `n` characters, or all of `s` when it is shorter. */
  function Prefix(s: string, n: nat): (r: string)
    ensures r <= s
    ensures |r| == if n <= |s| then n else |s|
  {
    if n <= |s| then s[..n] else s
  }

  /** `s.replace(/x/g, y)` for a single character `x` and a single-character `y`. */
  function ReplaceChar(s: string, from: char, to: char): (r: string)
    ensures |r| == |s|
    ensures forall i :: 0 <= i < |s| ==> r[i] == if s[i] == from then to else s[i]
    ensures from != to ==> from !in r
  {
    if s == [] then []
    else [if s[0] == from then to else s[0]] + ReplaceChar(s[1..], from, to)
  }
}
