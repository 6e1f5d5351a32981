/**
 * The string operations the client's search boxes use: `toLowerCase` (on the ASCII
 * letters) and `includes`.
 */
module Text {
  import opened Collections

  function LowerChar(c: char): char
  {
    if 'A' <= c <= 'Z' then (c as int + 32) as char else c
  }

  /** `s.toLowerCase()`, letter by letter. */
  function Lower(s: string): string
  {
    MapSeq(s, LowerChar)
  }

  /** Lower-casing keeps the length, leaves no capital letter, and a second pass changes nothing. */
  lemma LowerSpec(s: string)
    ensures |Lower(s)| == |s|
    ensures forall i :: 0 <= i < |s| ==> !('A' <= Lower(s)[i] <= 'Z')
    ensures Lower(Lower(s)) == Lower(s)
  {
    MapSeqEach(s, LowerChar);
    MapSeqEach(Lower(s), LowerChar);
  }

  /** A string with no capital letter is its own lower-case form. */
  lemma LowerKeepsLowerCase(s: string)
    requires forall i :: 0 <= i < |s| ==> !('A' <= s[i] <= 'Z')
    ensures Lower(s) == s
  {
    MapSeqEach(s, LowerChar);
  }

  /** `s.startsWith(t)`. */
  predicate IsPrefix(t: string, s: string)
  {
    |t| <= |s| && s[..|t|] == t
  }

  /** `s.includes(t)`: `t` starts `s` or occurs in its tail. */
  predicate Contains(s: string, t: string)
    decreases |s|
  {
    IsPrefix(t, s) || (s != [] && Contains(s[1..], t))
  }

  /** `t` occurs in `s` exactly when it starts one of the suffixes `s[i..]`. */
  lemma {:induction false} ContainsAt(s: string, t: string)
    ensures Contains(s, t) <==> exists i :: 0 <= i <= |s| && IsPrefix(t, s[i..])
    decreases |s|
  {
    if s != [] {
      ContainsAt(s[1..], t);
      forall i | 1 <= i <= |s| ensures s[i..] == s[1..][i - 1..] { }
      if exists i :: 0 <= i <= |s| && IsPrefix(t, s[i..]) {
        var i :| 0 <= i <= |s| && IsPrefix(t, s[i..]);
        if i > 0 {
          assert IsPrefix(t, s[1..][i - 1..]);
        }
      }
    } else {
      assert s[0..] == s;
    }
    if IsPrefix(t, s) {
      assert s[0..] == s;
    }
  }

  /** The empty string occurs in every string, and every string in itself. */
  lemma ContainsTrivial(s: string)
    ensures Contains(s, "")
    ensures Contains(s, s)
  {
  }

  /** A string occurs only in strings at least as long. */
  lemma {:induction false} ContainsLength(s: string, t: string)
    requires Contains(s, t)
    ensures |t| <= |s|
    decreases |s|
  {
    if !IsPrefix(t, s) {
      ContainsLength(s[1..], t);
    }
  }
}
