/**
 * The handful of Python `str` operations the two scripts rely on:
 * `strip()`, `lower()`, `replace()` of a single character, and
 * `splitlines()`.
 */
module Text {

  /** The characters for which Python's `str.isspace()` holds. */
  const Whitespace: set<char> := {
    ' ', '\U{9}', '\U{a}', '\U{b}', '\U{c}', '\U{d}', '\U{1c}', '\U{1d}', '\U{1e}', '\U{1f}',
    '\U{85}', '\U{a0}', '\U{1680}', '\U{2000}', '\U{2001}', '\U{2002}', '\U{2003}', '\U{2004}', '\U{2005}', '\U{2006}',
    '\U{2007}', '\U{2008}', '\U{2009}', '\U{200a}', '\U{2028}', '\U{2029}', '\U{202f}', '\U{205f}', '\U{3000}'
  }

  /** Python's `str.isspace()` for a single character. */
  predicate IsSpace(c: char)
  {
    c in Whitespace
  }

  /** Number of whitespace characters at the front of `s`. */
  function LeadingSpaces(s: string): (k: nat)
    ensures k <= |s|
  {
    if s == [] || !IsSpace(s[0]) then 0 else 1 + LeadingSpaces(s[1..])
  }

  lemma {:induction false} LeadingSpacesSpec(s: string)
    ensures forall i :: 0 <= i < LeadingSpaces(s) ==> IsSpace(s[i])
    ensures LeadingSpaces(s) < |s| ==> !IsSpace(s[LeadingSpaces(s)])
  {
    if s != [] && IsSpace(s[0]) {
      LeadingSpacesSpec(s[1..]);
    }
  }

  /** `s.strip()`: whitespace removed from the front, then from the back. */
  function Strip(s: string): (r: string)
    ensures |r| <= |s|
  {
    if s != [] && IsSpace(s[0]) then Strip(s[1..]) else StripEnd(s)
  }

  /** `s.rstrip()` */
  function StripEnd(s: string): (r: string)
    ensures |r| <= |s|
  {
    if s != [] && IsSpace(s[|s| - 1]) then StripEnd(s[..|s| - 1]) else s
  }

  /** `rstrip()` keeps the longest prefix that does not end in whitespace. */
  lemma {:induction false} StripEndSpec(s: string)
    ensures StripEnd(s) == s[..|StripEnd(s)|]
    ensures StripEnd(s) == [] || !IsSpace(StripEnd(s)[|StripEnd(s)| - 1])
    ensures forall i :: |StripEnd(s)| <= i < |s| ==> IsSpace(s[i])
  {
    if s != [] && IsSpace(s[|s| - 1]) {
      StripEndSpec(s[..|s| - 1]);
    }
  }

  /**
   * What `strip()` keeps: a slice of `s`, starting after its leading
   * whitespace, that neither starts nor ends with whitespace.
   */
  lemma {:induction false} StripSpec(s: string)
    ensures LeadingSpaces(s) + |Strip(s)| <= |s|
    ensures Strip(s) == s[LeadingSpaces(s)..LeadingSpaces(s) + |Strip(s)|]
    ensures Strip(s) == [] || (!IsSpace(Strip(s)[0]) && !IsSpace(Strip(s)[|Strip(s)| - 1]))
  {
    var r, l := Strip(s), LeadingSpaces(s);
    if s != [] && IsSpace(s[0]) {
      var t := s[1..];
      StripSpec(t);
      assert r == t[l - 1..l - 1 + |r|] == s[l..l + |r|];
    } else {
      StripEndSpec(s);
      assert l == 0 && r == StripEnd(s) == s[..|r|];
      if r != [] {
        assert r[0] == s[0];
      }
    }
  }

  /**
   * What `strip()` cuts away is whitespace, so nothing is left exactly
   * when `s` is all whitespace.
   */
  lemma {:induction false} StripCutsSpaces(s: string)
    ensures LeadingSpaces(s) + |Strip(s)| <= |s|
    ensures forall i :: 0 <= i < |s| && !(LeadingSpaces(s) <= i < LeadingSpaces(s) + |Strip(s)|) ==> IsSpace(s[i])
    ensures Strip(s) == [] <==> forall i :: 0 <= i < |s| ==> IsSpace(s[i])
  {
    var r, l := Strip(s), LeadingSpaces(s);
    StripSpec(s);
    if s != [] && IsSpace(s[0]) {
      var t := s[1..];
      StripCutsSpaces(t);
      forall i | 0 <= i < |s| && !(l <= i < l + |r|)
        ensures IsSpace(s[i])
      {
        if i > 0 {
          assert s[i] == t[i - 1];
        }
      }
      if forall i :: 0 <= i < |s| ==> IsSpace(s[i]) {
        forall i | 0 <= i < |t|
          ensures IsSpace(t[i])
        {
          assert t[i] == s[i + 1];
        }
      }
    } else {
      StripEndSpec(s);
    }
  }

  /** Text that neither starts nor ends with whitespace is already stripped. */
  lemma StripTrimmed(s: string)
    requires s != [] && !IsSpace(s[0]) && !IsSpace(s[|s| - 1])
    ensures Strip(s) == s && s != ""
  {
  }

  lemma StripIdempotent(s: string)
    ensures Strip(Strip(s)) == Strip(s)
  {
    StripSpec(s);
    var r := Strip(s);
    if r != [] {
      assert Strip(r) == StripEnd(r);
    }
  }

  /**
   * One character of `str.lower()`: ASCII capitals, and the KELVIN SIGN,
   * the one non-ASCII character whose lower case is an ASCII letter.
   */
  function LowerChar(c: char): char
  {
    if 'A' <= c <= 'Z' then (c as int + 32) as char
    else if c == '\U{212a}' then 'k'
    else c
  }

  /** `s.lower()`, one character at a time. */
  function Lower(s: string): string
  {
    seq(|s|, i requires 0 <= i < |s| => LowerChar(s[i]))
  }

  /** Lower-casing twice is lower-casing once: no lower-cased character is a capital. */
  lemma LowerIdempotent(s: string)
    ensures Lower(Lower(s)) == Lower(s)
  {
    forall i | 0 <= i < |s|
      ensures Lower(Lower(s))[i] == Lower(s)[i]
    {
      var c := s[i];
      assert Lower(Lower(s))[i] == LowerChar(LowerChar(c));
    }
  }

  /** Text without capitals or the Kelvin sign is its own lower case. */
  lemma LowerKeepsLowerCase(s: string)
    requires forall i :: 0 <= i < |s| ==> !('A' <= s[i] <= 'Z') && s[i] != '\U{212a}'
    ensures Lower(s) == s
  {
  }

  /** `s.replace(from, to)` for one-character `from` and `to`. */
  function ReplaceChar(s: string, from: char, to: char): string
  {
    seq(|s|, i requires 0 <= i < |s| => if s[i] == from then to else s[i])
  }

  /**
   * Replacing keeps the length and every other character in place, and
   * leaves no `from` behind; the text is unchanged exactly when `from`
   * does not occur in it or is replaced by itself.
   */
  lemma ReplaceCharSpec(s: string, from: char, to: char)
    ensures |ReplaceChar(s, from, to)| == |s|
    ensures forall i :: 0 <= i < |s| && s[i] != from ==> ReplaceChar(s, from, to)[i] == s[i]
    ensures from != to ==> from !in ReplaceChar(s, from, to)
    ensures ReplaceChar(s, from, to) == s <==> from !in s || from == to
  {
    var r := ReplaceChar(s, from, to);
    if from in s && from != to {
      var i :| 0 <= i < |s| && s[i] == from;
      assert r[i] != s[i];
    }
  }

  /** `s.replace(c, "")`: every occurrence of `c` removed. */
  function Delete(s: string, c: char): (r: string)
    ensures |r| <= |s|
    ensures forall i :: 0 <= i < |r| ==> r[i] != c && r[i] in s
  {
    if s == [] then []
    else (if s[0] == c then [] else [s[0]]) + Delete(s[1..], c)
  }

  lemma {:induction false} DeleteConcat(a: string, b: string, c: char)
    ensures Delete(a + b, c) == Delete(a, c) + Delete(b, c)
  {
    if a == [] {
      assert a + b == b;
    } else {
      assert (a + b)[1..] == a[1..] + b;
      DeleteConcat(a[1..], b, c);
    }
  }

  // ---------------------------------------------------------------------
  // Lines

  /** The line boundaries of Python's `str.splitlines()`; `\r\n` counts as one. */
  const LineBreaks: set<char> := {
    '\U{a}', '\U{b}', '\U{c}', '\U{d}', '\U{1c}', '\U{1d}', '\U{1e}', '\U{85}', '\U{2028}', '\U{2029}'
  }

  predicate IsLineBreak(c: char)
  {
    c in LineBreaks
  }

  /** Text with no line boundary in it. */
  predicate OneLine(s: string)
  {
    forall i :: 0 <= i < |s| ==> !IsLineBreak(s[i])
  }

  /** Position of the first line boundary in `s`, or `|s|` when there is none. */
  function LineEnd(s: string): (k: nat)
    ensures k <= |s|
    ensures OneLine(s[..k])
    ensures k < |s| ==> IsLineBreak(s[k])
  {
    if s == [] || IsLineBreak(s[0]) then 0
    else
      var k := 1 + LineEnd(s[1..]);
      assert s[..k] == [s[0]] + s[1..][..k - 1];
      k
  }

  /**
   * `s.splitlines()`: the pieces between line boundaries, with a `\r\n`
   * pair taken as one boundary and no empty piece after a final one.
   */
  function SplitLines(s: string): (lines: seq<string>)
    ensures forall i :: 0 <= i < |lines| ==> OneLine(lines[i])
    decreases |s|
  {
    var k := LineEnd(s);
    if k == |s| then (if s == [] then [] else [s])
    else
      var width := if s[k] == '\r' && k + 1 < |s| && s[k + 1] == '\n' then 2 else 1;
      [s[..k]] + SplitLines(s[k + width..])
  }

  /** The text of a file written one line at a time, each line followed by `\n`. */
  function JoinLines(lines: seq<string>): string
  {
    if lines == [] then "" else lines[0] + "\n" + JoinLines(lines[1..])
  }

  /** In a line followed by a boundary, the first boundary is the one after the line. */
  lemma {:induction false} LineEndAfter(line: string, rest: string)
    requires OneLine(line) && rest != [] && IsLineBreak(rest[0])
    ensures LineEnd(line + rest) == |line|
  {
    if line != [] {
      assert (line + rest)[1..] == line[1..] + rest;
      LineEndAfter(line[1..], rest);
    }
  }

  /** Lines without boundaries, written one per line, are read back as they were written. */
  lemma {:induction false} SplitJoin(lines: seq<string>)
    requires forall i :: 0 <= i < |lines| ==> OneLine(lines[i])
    ensures SplitLines(JoinLines(lines)) == lines
  {
    if lines != [] {
      var s := JoinLines(lines);
      var rest := JoinLines(lines[1..]);
      assert s == lines[0] + ("\n" + rest);
      LineEndAfter(lines[0], "\n" + rest);
      assert s[..|lines[0]|] == lines[0];
      assert s[|lines[0]| + 1..] == rest;
      SplitJoin(lines[1..]);
    }
  }

  /** A line holding a raw U+2028 is read back as two pieces. */
  lemma SplitAtLineSeparator()
    ensures SplitLines("{\U{2028}}\n") == ["{", "}"]
  {
    var s := "{\U{2028}}\n";
    LineEndAfter("{", s[1..]);
    assert s[..1] == "{";
    assert s[2..] == "}\n";
    LineEndAfter("}", "\n");
    assert "}\n"[..1] == "}";
    assert "}\n"[2..] == "";
    assert SplitLines("}\n") == ["}"];
  }
}
