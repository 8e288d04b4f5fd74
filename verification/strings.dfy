/** The string operations the bot applies to model output: Python's
    `str.strip()`, `str.replace(old, "")`, the `in` substring test, and the
    code-fence cleaning built from them. */
module Strings {

  /** Python's `str.isspace()` characters: the ones `str.strip()` removes. */
  const SpaceChars: set<char> := {
    '\t', '\n', '\U{0B}', '\U{0C}', '\r', '\U{1C}', '\U{1D}', '\U{1E}', '\U{1F}', ' ',
    '\U{85}', '\U{A0}', '\U{1680}',
    '\U{2000}', '\U{2001}', '\U{2002}', '\U{2003}', '\U{2004}', '\U{2005}',
    '\U{2006}', '\U{2007}', '\U{2008}', '\U{2009}', '\U{200A}',
    '\U{2028}', '\U{2029}', '\U{202F}', '\U{205F}', '\U{3000}' }

  predicate IsSpace(c: char)
  {
    c in SpaceChars
  }

  /** The length of the maximal whitespace prefix. */
  function LeadingSpaces(s: string): (n: nat)
    ensures n <= |s|
    ensures forall i :: 0 <= i < n ==> IsSpace(s[i])
    ensures n == |s| || !IsSpace(s[n])
  {
    if |s| > 0 && IsSpace(s[0]) then
      var m := LeadingSpaces(s[1..]);
      assert forall i :: 1 <= i < m + 1 ==> s[i] == s[1..][i - 1];
      m + 1
    else 0
  }

  /** The length of the maximal whitespace suffix. */
  function TrailingSpaces(s: string): (n: nat)
    ensures n <= |s|
    ensures forall i :: |s| - n <= i < |s| ==> IsSpace(s[i])
    ensures n == |s| || !IsSpace(s[|s| - n - 1])
  {
    if |s| > 0 && IsSpace(s[|s| - 1]) then
      var m := TrailingSpaces(s[..|s| - 1]);
      assert forall i :: |s| - 1 - m <= i < |s| - 1 ==> s[i] == s[..|s| - 1][i];
      m + 1
    else 0
  }

  /** Python's `s.strip()`: the middle of `s` with whitespace at both ends removed. */
  function Strip(s: string): (r: string)
    ensures |r| <= |s|
    ensures |r| > 0 ==> !IsSpace(r[0]) && !IsSpace(r[|r| - 1])
  {
    var t := s[LeadingSpaces(s)..];
    t[..|t| - TrailingSpaces(t)]
  }

  /** `Strip(s)` is the slice `s[a..a + |r|]` of `s`; what it cuts before `a`
      and after the slice is whitespace, and the slice itself neither starts
      nor ends with whitespace. */
  lemma StripSpec(s: string)
    ensures var r, a := Strip(s), LeadingSpaces(s);
      && a + |r| <= |s| && r == s[a..a + |r|]
      && (forall i :: 0 <= i < a ==> IsSpace(s[i]))
      && (forall i :: a + |r| <= i < |s| ==> IsSpace(s[i]))
      && (r == [] || (!IsSpace(r[0]) && !IsSpace(r[|r| - 1])))
  {
    var a := LeadingSpaces(s);
    var t := s[a..];
    var b := TrailingSpaces(t);
    var r := Strip(s);
    assert r == t[..|t| - b];
    assert r == s[a..a + |r|];
    forall i | a + |r| <= i < |s| ensures IsSpace(s[i]) {
      assert s[i] == t[i - a];
    }
    if r != [] {
      assert r[0] == s[a];
      assert r[|r| - 1] == t[|t| - b - 1];
    }
  }

  /** A string without surrounding whitespace is left unchanged by `Strip`. */
  lemma StripIdempotent(s: string)
    ensures Strip(Strip(s)) == Strip(s)
  {
  }

  /** `pat` occurs in `s` starting at index `i`. */
  predicate OccursAt(s: string, pat: string, i: int)
  {
    0 <= i && i + |pat| <= |s| && s[i..i + |pat|] == pat
  }

  /** Python's `pat in s`. */
  predicate Contains(s: string, pat: string)
  {
    pat <= s || (|s| > 0 && Contains(s[1..], pat))
  }

  /** `Contains` holds exactly when the pattern occurs at some index. */
  lemma {:induction false} ContainsSpec(s: string, pat: string)
    ensures Contains(s, pat) <==> exists i :: OccursAt(s, pat, i)
  {
    if pat <= s {
      assert OccursAt(s, pat, 0);
    } else if |s| == 0 {
      assert |pat| > 0;
      assert forall i :: !OccursAt(s, pat, i);
    } else {
      ContainsSpec(s[1..], pat);
      if Contains(s[1..], pat) {
        var i :| OccursAt(s[1..], pat, i);
        assert s[i + 1..i + 1 + |pat|] == s[1..][i..i + |pat|];
        assert OccursAt(s, pat, i + 1);
      }
      if exists i :: OccursAt(s, pat, i) {
        var i :| OccursAt(s, pat, i);
        assert i > 0;
        assert s[1..][i - 1..i - 1 + |pat|] == s[i..i + |pat|];
        assert OccursAt(s[1..], pat, i - 1);
      }
    }
  }

  /** Python's `s.replace(pat, "")`: occurrences are removed left to right,
      without overlap. */
  function RemoveAll(s: string, pat: string): (r: string)
    requires |pat| > 0
    ensures |r| <= |s|
    decreases |s|
  {
    if |s| == 0 then []
    else if pat <= s then RemoveAll(s[|pat|..], pat)
    else [s[0]] + RemoveAll(s[1..], pat)
  }

  /** A string in which the pattern's first character never appears holds
      no occurrence, so removal leaves it unchanged. */
  lemma {:induction false} RemoveAllAbsent(s: string, pat: string)
    requires |pat| > 0
    requires forall i :: 0 <= i < |s| ==> s[i] != pat[0]
    ensures RemoveAll(s, pat) == s
    decreases |s|
  {
    if |s| > 0 {
      assert !(pat <= s) by { assert s[0] != pat[0]; }
      RemoveAllAbsent(s[1..], pat);
    }
  }

  const Backtick: char := '`'

  /** The markdown code-fence marker. */
  const Fence: string := "```"

  /** The opening marker of a fenced JSON block. */
  const JsonFence: string := "```json"

  /** `s.strip().replace("```json", "").replace("```", "")`, applied to the
      model's reply before it is decoded as JSON (app.py:540 and 624). */
  function CleanFences(s: string): (r: string)
    ensures |r| <= |s|
    ensures !Contains(r, Fence)
  {
    var t := RemoveAll(Strip(s), JsonFence);
    RemoveFenceLeavesNone(t);
    RemoveAll(t, Fence)
  }

  /** After removing fences, a result that starts at all starts with the
      input's first character whenever that character is not a backtick. */
  lemma RemoveFenceHead(t: string)
    requires |t| > 0 && t[0] != Backtick
    ensures RemoveAll(t, Fence) == [t[0]] + RemoveAll(t[1..], Fence)
  {
  }

  /** Removing "```" left to right can never leave a "```" behind: every
      backtick that survives is followed, within two characters, by a
      non-backtick or by the end of the string. */
  lemma {:induction false} RemoveFenceLeavesNone(s: string)
    ensures !Contains(RemoveAll(s, Fence), Fence)
    decreases |s|
  {
    var r := RemoveAll(s, Fence);
    if |s| == 0 {
      assert !(Fence <= r);
    } else if Fence <= s {
      RemoveFenceLeavesNone(s[3..]);
    } else {
      var t := RemoveAll(s[1..], Fence);
      assert r == [s[0]] + t;
      RemoveFenceLeavesNone(s[1..]);
      assert r[1..] == t;
      if s[0] == Backtick {
        // s does not start with a fence, so s[1] or s[2] is missing or not a backtick
        if |s| == 1 {
          assert t == [];
        } else if s[1] != Backtick {
          RemoveFenceHead(s[1..]);
          assert t[0] == s[1];
        } else {
          assert |s| == 2 || s[2] != Backtick by {
            if |s| >= 3 {
              assert s[..3] == [s[0], s[1], s[2]];
            }
          }
          var u := s[1..];
          assert !(Fence <= u) by {
            assert |u| < 3 || u[1] != Fence[1];
          }
          assert t == [u[0]] + RemoveAll(u[1..], Fence);
          if |s| == 2 {
            assert u[1..] == [];
            assert t == [Backtick];
          } else {
            RemoveFenceHead(u[1..]);
            assert t[1] == s[2];
          }
        }
        assert !(Fence <= r);
      } else {
        assert !(Fence <= r) by { assert r[0] != Fence[0]; }
      }
    }
  }

  /** A reply without any backtick is only trimmed. */
  lemma CleanFencesPlain(s: string)
    ensures (forall i :: 0 <= i < |s| ==> s[i] != Backtick) ==> CleanFences(s) == Strip(s)
  {
    if forall i :: 0 <= i < |s| ==> s[i] != Backtick {
      var t := Strip(s);
      StripSpec(s);
      RemoveAllAbsent(t, JsonFence);
      RemoveAllAbsent(t, Fence);
    }
  }
}
