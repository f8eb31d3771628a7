/** String helpers shared by every component: the ECMAScript notions of
    white space (`trim`, the regex class `\s`), `toLowerCase`, `includes`,
    `startsWith`, `split` on one character and `join`. */
module Text {

  /** ECMAScript WhiteSpace and LineTerminator code points: what `trim()`
      strips and what the regex class `\s` matches. */
  predicate IsSpace(c: char)
  {
    c == ' ' || c == '\t' || c == '\n' || c == '\r' || c == '\U{000B}' || c == '\U{000C}'
    || c == '\U{00A0}' || c == '\U{1680}' || ('\U{2000}' <= c <= '\U{200A}')
    || c == '\U{2028}' || c == '\U{2029}' || c == '\U{202F}' || c == '\U{205F}'
    || c == '\U{3000}' || c == '\U{FEFF}'
  }

  predicate AllSpace(s: string)
  {
    forall k :: 0 <= k < |s| ==> IsSpace(s[k])
  }

  /** Drops leading white space. */
  function TrimStart(s: string): string
  {
    if |s| > 0 && IsSpace(s[0]) then TrimStart(s[1..]) else s
  }

  /** Drops trailing white space. */
  function TrimEnd(s: string): string
  {
    if |s| > 0 && IsSpace(s[|s| - 1]) then TrimEnd(s[..|s| - 1]) else s
  }

  /** `TrimStart` returns a suffix, after a run of white space, that does
      not itself begin with white space. */
  lemma {:induction false} TrimStartShape(s: string)
    ensures var r := TrimStart(s);
            |r| <= |s| && r == s[|s| - |r|..] && AllSpace(s[..|s| - |r|])
            && (r == [] || !IsSpace(r[0]))
  {
    if |s| > 0 && IsSpace(s[0]) {
      var tail := s[1..];
      TrimStartShape(tail);
      var r := TrimStart(tail);
      var n := |s| - |r|;
      assert tail[n - 1..] == s[n..];
      forall k | 0 <= k < n ensures IsSpace(s[..n][k]) {
        if k > 0 {
          assert s[..n][k] == tail[..n - 1][k - 1];
        }
      }
    }
  }

  /** `TrimEnd` returns a prefix, before a run of white space, that does
      not itself end with white space. */
  lemma {:induction false} TrimEndShape(s: string)
    ensures var r := TrimEnd(s);
            |r| <= |s| && r == s[..|r|] && AllSpace(s[|r|..])
            && (r == [] || !IsSpace(r[|r| - 1]))
  {
    if |s| > 0 && IsSpace(s[|s| - 1]) {
      var p := s[..|s| - 1];
      TrimEndShape(p);
      var r := TrimEnd(p);
      assert p[..|r|] == s[..|r|];
      forall k | |r| <= k < |s| ensures IsSpace(s[k]) {
        if k < |s| - 1 {
          assert s[k] == p[|r|..][k - |r|];
        }
      }
    }
  }

  /** `String.prototype.trim`. */
  function Trim(s: string): string
  {
    TrimEnd(TrimStart(s))
  }

  /** What `trim` returns: the middle of `s` between two runs of white
      space, beginning and ending with a non-space character. */
  lemma TrimIsCore(s: string)
    ensures exists i, j :: 0 <= i <= j <= |s| && Trim(s) == s[i..j]
                        && AllSpace(s[..i]) && AllSpace(s[j..])
    ensures Trim(s) == [] || (!IsSpace(Trim(s)[0]) && !IsSpace(Trim(s)[|Trim(s)| - 1]))
  {
    var t := TrimStart(s);
    TrimStartShape(s);
    TrimEndShape(t);
    var i := |s| - |t|;
    var j := i + |TrimEnd(t)|;
    assert t == s[i..];
    assert t[|TrimEnd(t)|..] == s[j..];
    assert t[..j - i] == s[i..j];
  }

  /** A string trims to nothing exactly when all of it is white space. */
  lemma TrimEmptyIffAllSpace(s: string)
    ensures Trim(s) == [] <==> AllSpace(s)
  {
    var t := TrimStart(s);
    TrimStartShape(s);
    TrimStartEmpty(s);
    TrimEndEmpty(t);
    TrimStartEmpty(t);
    assert TrimStart(t) == t;
  }

  lemma {:induction false} TrimStartEmpty(s: string)
    ensures TrimStart(s) == [] <==> AllSpace(s)
  {
    if |s| > 0 && IsSpace(s[0]) {
      TrimStartEmpty(s[1..]);
      assert AllSpace(s) <==> AllSpace(s[1..]) by {
        if AllSpace(s[1..]) {
          forall k | 0 < k < |s| ensures IsSpace(s[k]) { assert s[k] == s[1..][k - 1]; }
        }
      }
    } else if |s| > 0 {
      assert !IsSpace(s[0]);
    }
  }

  lemma {:induction false} TrimEndEmpty(s: string)
    ensures TrimEnd(s) == [] <==> AllSpace(s)
  {
    if |s| > 0 && IsSpace(s[|s| - 1]) {
      var p := s[..|s| - 1];
      TrimEndEmpty(p);
      assert AllSpace(s) <==> AllSpace(p) by {
        if AllSpace(p) {
          forall k | 0 <= k < |s| - 1 ensures IsSpace(s[k]) { assert s[k] == p[k]; }
        }
      }
    } else if |s| > 0 {
      assert !IsSpace(s[|s| - 1]);
    }
  }

  /** `trim` removes exactly the white-space padding around a core that
      begins and ends with a non-space character. */
  lemma {:induction false} TrimPadded(p: string, core: string, q: string)
    requires AllSpace(p) && AllSpace(q)
    requires core != [] && !IsSpace(core[0]) && !IsSpace(core[|core| - 1])
    ensures Trim(p + core + q) == core
  {
    assert p + core + q == p + (core + q);
    TrimStartPadded(p, core + q);
    TrimEndPadded(core, q);
    calc {
      Trim(p + core + q);
      TrimEnd(TrimStart(p + (core + q)));
      TrimEnd(core + q);
      core;
    }
  }

  lemma {:induction false} TrimStartPadded(p: string, s: string)
    requires AllSpace(p) && s != [] && !IsSpace(s[0])
    ensures TrimStart(p + s) == s
  {
    if p != [] {
      assert (p + s)[1..] == p[1..] + s;
      TrimStartPadded(p[1..], s);
    }
  }

  lemma {:induction false} TrimEndPadded(s: string, q: string)
    requires AllSpace(q) && s != [] && !IsSpace(s[|s| - 1])
    ensures TrimEnd(s + q) == s
  {
    if q != [] {
      assert (s + q)[..|s + q| - 1] == s + q[..|q| - 1];
      TrimEndPadded(s, q[..|q| - 1]);
    } else {
      assert s + q == s;
    }
  }

  /** A string without any upper-case ASCII letter is its own lower case. */
  lemma LowerOfLower(s: string)
    requires forall k :: 0 <= k < |s| ==> !('A' <= s[k] <= 'Z')
    ensures Lower(s) == s
  {
  }

  /** `toLowerCase` on the ASCII letters. */
  function LowerChar(c: char): (r: char)
    ensures 'A' <= c <= 'Z' ==> r as int == c as int + 32
    ensures !('A' <= c <= 'Z') ==> r == c
  {
    if 'A' <= c <= 'Z' then (c as int + 32) as char else c
  }

  function Lower(s: string): (r: string)
    ensures |r| == |s|
    ensures forall k :: 0 <= k < |s| ==> r[k] == LowerChar(s[k])
  {
    if s == [] then [] else [LowerChar(s[0])] + Lower(s[1..])
  }

  /** `s.startsWith(p)`. */
  predicate StartsWith(s: string, p: string)
  {
    |p| <= |s| && s[..|p|] == p
  }

  /** `s.includes(t)`: `t` occurs in `s` at some position. */
  predicate Contains(s: string, t: string)
    decreases |s|
  {
    StartsWith(s, t) || (|s| > 0 && Contains(s[1..], t))
  }

  /** `t` occurs in `s` starting at index `i`. */
  predicate OccursAt(s: string, t: string, i: int)
  {
    0 <= i && i + |t| <= |s| && s[i..i + |t|] == t
  }

  /** `Contains` agrees with its positional definition. */
  lemma {:induction false} ContainsAt(s: string, t: string)
    ensures Contains(s, t) <==> exists i :: OccursAt(s, t, i)
    decreases |s|
  {
    if StartsWith(s, t) {
      assert OccursAt(s, t, 0);
    } else if |s| > 0 {
      ContainsAt(s[1..], t);
      if exists i :: OccursAt(s, t, i) {
        var i :| OccursAt(s, t, i);
        assert i != 0;
        assert OccursAt(s[1..], t, i - 1);
      }
      if Contains(s[1..], t) {
        var i :| OccursAt(s[1..], t, i);
        assert OccursAt(s, t, i + 1);
      }
    } else {
      assert forall i :: !OccursAt(s, t, i);
    }
  }

  /** `parts.join(sep)`. */
  function Join(parts: seq<string>, sep: string): string
  {
    if |parts| == 0 then ""
    else if |parts| == 1 then parts[0]
    else parts[0] + sep + Join(parts[1..], sep)
  }

  /** With the empty separator, a join is the first part followed by the
      join of the rest. */
  lemma JoinEmptyFront(parts: seq<string>)
    requires |parts| >= 1
    ensures Join(parts, "") == parts[0] + Join(parts[1..], "")
  {
    assert parts[0] + "" == parts[0];
  }

  /** A character in neither the parts nor the separator is not in their
      join. */
  lemma {:induction false} JoinFree(parts: seq<string>, sep: string, c: char)
    requires c !in sep && forall k :: 0 <= k < |parts| ==> c !in parts[k]
    ensures c !in Join(parts, sep)
  {
    if |parts| > 1 {
      JoinFree(parts[1..], sep, c);
    }
  }

  /** `s.split(sep)` for a one-character separator: never empty, and no
      piece holds the separator. */
  function SplitOn(s: string, sep: char): (r: seq<string>)
    ensures |r| >= 1
    ensures forall k :: 0 <= k < |r| ==> sep !in r[k]
  {
    if |s| == 0 then [""]
    else if s[0] == sep then [""] + SplitOn(s[1..], sep)
    else
      var rest := SplitOn(s[1..], sep);
      [[s[0]] + rest[0]] + rest[1..]
  }

  /** Joining the pieces with the separator gives back the string. */
  lemma {:induction false} SplitThenJoin(s: string, sep: char)
    ensures Join(SplitOn(s, sep), [sep]) == s
  {
    if |s| > 0 {
      SplitThenJoin(s[1..], sep);
      var rest := SplitOn(s[1..], sep);
      if s[0] != sep {
        if |rest| > 1 {
          assert ([[s[0]] + rest[0]] + rest[1..])[1..] == rest[1..];
        }
      }
    }
  }

  /** Splitting a join of separator-free pieces gives back the pieces. */
  lemma {:induction false} JoinThenSplit(parts: seq<string>, sep: char)
    requires |parts| >= 1
    requires forall k :: 0 <= k < |parts| ==> sep !in parts[k]
    ensures SplitOn(Join(parts, [sep]), sep) == parts
  {
    if |parts| == 1 {
      SplitFree(parts[0], sep);
    } else {
      JoinThenSplit(parts[1..], sep);
      SplitPrefix(parts[0], Join(parts[1..], [sep]), sep);
    }
  }

  lemma {:induction false} SplitFree(s: string, sep: char)
    requires sep !in s
    ensures SplitOn(s, sep) == [s]
  {
    if |s| > 0 {
      assert sep !in s[1..];
      SplitFree(s[1..], sep);
      assert [s[0]] + s[1..] == s;
    }
  }

  lemma {:induction false} SplitPrefix(a: string, b: string, sep: char)
    requires sep !in a
    ensures SplitOn(a + [sep] + b, sep) == [a] + SplitOn(b, sep)
  {
    if |a| == 0 {
      assert ([] + [sep] + b)[1..] == b;
    } else {
      assert (a + [sep] + b)[1..] == a[1..] + [sep] + b;
      assert sep !in a[1..];
      SplitPrefix(a[1..], b, sep);
      assert [a[0]] + a[1..] == a;
    }
  }
}
