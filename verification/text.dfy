/** The Kotlin string operations the playlist parser and the site adapters
    rely on, over `string` (a sequence of `char`). */
module Text {

  /** Kotlin's `Char.isWhitespace()` on the JVM: `Character.isWhitespace`
      or `Character.isSpaceChar`. That is the ASCII controls TAB, LF, VT, FF,
      CR and FS..US, plus every Unicode space, line or paragraph separator. */
  predicate IsWhitespace(c: char) {
    var n := c as int;
    || 0x09 <= n <= 0x0D
    || 0x1C <= n <= 0x20
    || n == 0xA0
    || n == 0x1680
    || 0x2000 <= n <= 0x200A
    || n == 0x2028 || n == 0x2029 || n == 0x202F || n == 0x205F
    || n == 0x3000
  }

  /** `isBlank()`: every character is whitespace (the empty string included). */
  predicate IsBlank(s: string) {
    forall i | 0 <= i < |s| :: IsWhitespace(s[i])
  }

  /** A string with no whitespace at either end. */
  predicate IsTrimmed(s: string) {
    |s| == 0 || (!IsWhitespace(s[0]) && !IsWhitespace(s[|s| - 1]))
  }

  /** Drops leading whitespace. */
  function TrimStart(s: string): (r: string)
    ensures |r| <= |s| && r == s[|s| - |r|..]
    ensures IsBlank(s[..|s| - |r|])
    ensures |r| > 0 ==> !IsWhitespace(r[0])
  {
    if |s| > 0 && IsWhitespace(s[0]) then TrimStart(s[1..]) else s
  }

  /** Drops trailing whitespace. */
  function TrimEnd(s: string): (r: string)
    ensures |r| <= |s| && r == s[..|r|]
    ensures IsBlank(s[|r|..])
    ensures |r| > 0 ==> !IsWhitespace(r[|r| - 1])
  {
    if |s| > 0 && IsWhitespace(s[|s| - 1]) then TrimEnd(s[..|s| - 1]) else s
  }

  /** Kotlin `trim()`: the infix left once leading and trailing whitespace
      is cut away; what is cut away is whitespace and what is left has none
      at either end. */
  function Trim(s: string): (r: string)
    ensures IsTrimmed(r)
    ensures |r| <= |s|
    ensures exists k | 0 <= k <= |s| - |r| :: IsTrimOf(s, k, r)
  {
    var t := TrimStart(s);
    var r := TrimEnd(t);
    var k := |s| - |t|;
    assert s[k..k + |r|] == r;
    assert s[k + |r|..] == t[|r|..];
    assert IsTrimOf(s, k, r);
    r
  }

  /** r sits at offset k of s with only whitespace around it. */
  predicate IsTrimOf(s: string, k: int, r: string) {
    && 0 <= k <= |s| - |r|
    && s[k..k + |r|] == r
    && IsBlank(s[..k])
    && IsBlank(s[k + |r|..])
  }

  lemma {:induction false} TrimStartPadded(a: string, x: string)
    requires IsBlank(a)
    requires |x| == 0 || !IsWhitespace(x[0])
    ensures TrimStart(a + x) == x
    decreases |a|
  {
    if |a| > 0 {
      assert (a + x)[1..] == a[1..] + x;
      TrimStartPadded(a[1..], x);
    }
  }

  lemma {:induction false} TrimEndPadded(x: string, b: string)
    requires IsBlank(b)
    requires |x| == 0 || !IsWhitespace(x[|x| - 1])
    ensures TrimEnd(x + b) == x
    decreases |b|
  {
    if |b| > 0 {
      assert (x + b)[..|x + b| - 1] == x + b[..|b| - 1];
      TrimEndPadded(x, b[..|b| - 1]);
    }
  }

  /** Trim is characterised by its contract: padding a trimmed string with
      whitespace on both sides and trimming gives the string back. */
  lemma TrimPadded(a: string, m: string, b: string)
    requires IsBlank(a) && IsBlank(b) && IsTrimmed(m)
    ensures Trim(a + m + b) == m
  {
    if |m| == 0 {
      assert a + m + b == a + b + "";
      TrimStartPadded(a + b, "");
      TrimEndPadded("", "");
    } else {
      assert a + m + b == a + (m + b);
      TrimStartPadded(a, m + b);
      TrimEndPadded(m, b);
    }
  }

  /** Trimming a string that is already trimmed changes nothing. */
  lemma TrimTrimmed(m: string)
    requires IsTrimmed(m)
    ensures Trim(m) == m
  {
    TrimPadded("", m, "");
    assert "" + m + "" == m;
  }

  /** Kotlin `split(c)` on a single character: every piece, including empty
      ones at either end, in order. */
  function Split(s: string, sep: char): (parts: seq<string>)
    ensures |parts| >= 1
    ensures forall k | 0 <= k < |parts| :: sep !in parts[k]
    decreases |s|
  {
    if |s| == 0 then [""]
    else
      var rest := Split(s[1..], sep);
      if s[0] == sep then [""] + rest
      else [[s[0]] + rest[0]] + rest[1..]
  }

  /** Rejoins pieces with the separator between consecutive pieces. */
  function Join(parts: seq<string>, sep: char): (s: string)
    requires |parts| >= 1
  {
    if |parts| == 1 then parts[0] else parts[0] + [sep] + Join(parts[1..], sep)
  }

  /** Splitting then joining gives the original string back. */
  lemma {:induction false} JoinSplit(s: string, sep: char)
    ensures Join(Split(s, sep), sep) == s
    decreases |s|
  {
    if |s| > 0 {
      var rest := Split(s[1..], sep);
      JoinSplit(s[1..], sep);
      if s[0] == sep {
        assert Split(s, sep)[1..] == rest;
      } else {
        var parts := Split(s, sep);
        if |rest| == 1 {
          assert parts == [[s[0]] + rest[0]];
        } else {
          assert parts[1..] == rest[1..];
          assert Join(rest, sep) == rest[0] + [sep] + Join(rest[1..], sep);
          assert [s[0]] + Join(rest, sep) == ([s[0]] + rest[0]) + [sep] + Join(rest[1..], sep);
        }
        assert s == [s[0]] + s[1..];
      }
    }
  }

  /** A string without the separator splits into itself. */
  lemma {:induction false} SplitNoSeparator(a: string, sep: char)
    requires sep !in a
    ensures Split(a, sep) == [a]
    decreases |a|
  {
    if |a| > 0 {
      assert sep !in a[1..];
      SplitNoSeparator(a[1..], sep);
      assert a == [a[0]] + a[1..];
    }
  }

  /** The piece before the first separator comes off the front. */
  lemma {:induction false} SplitFirst(a: string, sep: char, t: string)
    requires sep !in a
    ensures Split(a + [sep] + t, sep) == [a] + Split(t, sep)
    decreases |a|
  {
    var s := a + [sep] + t;
    if |a| == 0 {
      assert s[1..] == t;
    } else {
      assert s[1..] == a[1..] + [sep] + t;
      assert sep !in a[1..];
      SplitFirst(a[1..], sep, t);
      assert [a[0]] + a[1..] == a;
    }
  }

  /** Splitting is the inverse of joining separator-free pieces. */
  lemma {:induction false} SplitJoin(parts: seq<string>, sep: char)
    requires |parts| >= 1
    requires forall k | 0 <= k < |parts| :: sep !in parts[k]
    ensures Split(Join(parts, sep), sep) == parts
    decreases |parts|
  {
    if |parts| == 1 {
      SplitNoSeparator(parts[0], sep);
    } else {
      SplitJoin(parts[1..], sep);
      SplitFirst(parts[0], sep, Join(parts[1..], sep));
      assert [parts[0]] + parts[1..] == parts;
    }
  }

  /** LF and CR end a line. */
  predicate IsLineBreak(c: char) {
    c == '\n' || c == '\r'
  }

  predicate HasNoLineBreak(s: string) {
    forall i | 0 <= i < |s| :: !IsLineBreak(s[i])
  }

  /** Kotlin `lines()`: splits on CRLF, LF and CR. The empty string is one
      empty line and a final line break leaves an empty last line. */
  function Lines(s: string): (lines: seq<string>)
    ensures |lines| >= 1
    ensures forall k | 0 <= k < |lines| :: HasNoLineBreak(lines[k])
    decreases |s|
  {
    if |s| == 0 then [""]
    else if s[0] == '\n' then [""] + Lines(s[1..])
    else if s[0] == '\r' then
      if |s| > 1 && s[1] == '\n' then [""] + Lines(s[2..]) else [""] + Lines(s[1..])
    else
      var rest := Lines(s[1..]);
      [[s[0]] + rest[0]] + rest[1..]
  }

  /** A text with no carriage return is split into lines exactly at its
      line feeds. */
  lemma {:induction false} LinesWithoutCarriageReturn(s: string)
    requires '\r' !in s
    ensures Lines(s) == Split(s, '\n')
    decreases |s|
  {
    if |s| > 0 {
      assert '\r' !in s[1..];
      LinesWithoutCarriageReturn(s[1..]);
    }
  }

  /** A line without line breaks followed by a terminator comes off the
      front; LF, CRLF and lone CR all end it the same way. */
  lemma {:induction false} LinesFirst(a: string, brk: string, t: string)
    requires HasNoLineBreak(a)
    requires brk == "\n" || brk == "\r\n" || brk == "\r"
    requires brk == "\r" ==> (|t| == 0 || t[0] != '\n')
    ensures Lines(a + brk + t) == [a] + Lines(t)
    decreases |a|
  {
    var s := a + brk + t;
    if |a| == 0 {
      assert s == brk + t;
      if brk == "\r\n" {
        assert s[2..] == t;
      } else {
        assert s[1..] == t;
      }
    } else {
      assert s[0] == a[0];
      assert s[1..] == a[1..] + brk + t;
      LinesFirst(a[1..], brk, t);
      assert [a[0]] + a[1..] == a;
    }
  }

  /** Writes each line followed by a line feed. */
  function Unlines(ls: seq<string>): string
    decreases |ls|
  {
    if |ls| == 0 then "" else ls[0] + "\n" + Unlines(ls[1..])
  }

  /** Reading back lines each written with a line feed gives them back, plus
      the empty line after the last line feed. */
  lemma {:induction false} LinesUnlines(ls: seq<string>)
    requires forall k | 0 <= k < |ls| :: HasNoLineBreak(ls[k])
    ensures Lines(Unlines(ls)) == ls + [""]
    decreases |ls|
  {
    if |ls| > 0 {
      LinesUnlines(ls[1..]);
      LinesFirst(ls[0], "\n", Unlines(ls[1..]));
      assert [ls[0]] + (ls[1..] + [""]) == ls + [""];
    }
  }

  /** A string without line breaks is a single line. */
  lemma {:induction false} LinesSingle(a: string)
    requires HasNoLineBreak(a)
    ensures Lines(a) == [a]
    decreases |a|
  {
    if |a| > 0 {
      LinesSingle(a[1..]);
      assert [a[0]] + a[1..] == a;
    }
  }

  /** `startsWith(prefix)`. */
  predicate StartsWith(s: string, prefix: string) {
    |prefix| <= |s| && s[..|prefix|] == prefix
  }

  /** `sub` occurs in `s` starting at position i. */
  predicate OccursAt(s: string, sub: string, i: int) {
    0 <= i && i + |sub| <= |s| && s[i..i + |sub|] == sub
  }

  /** `contains(sub)`: case-sensitive substring test. */
  predicate Contains(s: string, sub: string) {
    exists i | 0 <= i <= |s| - |sub| :: OccursAt(s, sub, i)
  }

  /** Whatever surrounds it, a string contains each of its infixes. */
  lemma ContainsInfix(a: string, sub: string, b: string)
    ensures Contains(a + sub + b, sub)
  {
    assert OccursAt(a + sub + b, sub, |a|);
  }

  /** A prefix is in particular contained. */
  lemma StartsWithContains(s: string, prefix: string)
    requires StartsWith(s, prefix)
    ensures Contains(s, prefix)
  {
    assert OccursAt(s, prefix, 0);
  }

  /** Every character of a contained string occurs in the containing one;
      so a string lacking one of them (a case variant, say) cannot match. */
  lemma ContainsCharacters(s: string, sub: string, k: int)
    requires Contains(s, sub)
    requires 0 <= k < |sub|
    ensures sub[k] in s
  {
    var i :| 0 <= i <= |s| - |sub| && OccursAt(s, sub, i);
    assert s[i + k] == s[i..i + |sub|][k];
  }

  /** Containment is transitive. */
  lemma ContainsTransitive(s: string, t: string, u: string)
    requires Contains(s, t) && Contains(t, u)
    ensures Contains(s, u)
  {
    var i :| 0 <= i <= |s| - |t| && OccursAt(s, t, i);
    var j :| 0 <= j <= |t| - |u| && OccursAt(t, u, j);
    forall n | 0 <= n < |u|
      ensures s[i + j + n] == u[n]
    {
      assert u[n] == t[j..j + |u|][n] == t[j + n];
      assert t[j + n] == s[i..i + |t|][j + n];
    }
    assert s[i + j..i + j + |u|] == u;
    assert OccursAt(s, u, i + j);
  }
}
