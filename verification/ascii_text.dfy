/**
 * The string operations the views rely on: `toLowerCase`, `toUpperCase` on one
 * character, `charAt(0).toUpperCase() + slice(1)` and `includes`.
 * Case mapping is modelled over ASCII letters only.
 */
module AsciiText {

  predicate IsUpper(c: char) { 'A' <= c <= 'Z' }

  predicate IsLower(c: char) { 'a' <= c <= 'z' }

  /** `toLowerCase` on one character. */
  function ToLower(c: char): (r: char)
    ensures !IsUpper(r)
    ensures r == c || IsUpper(c)
    ensures IsUpper(c) ==> IsLower(r)
    ensures IsUpper(c) ==> r as int - 'a' as int == c as int - 'A' as int
  {
    if IsUpper(c) then (c as int + 32) as char else c
  }

  /** `toUpperCase` on one character. */
  function ToUpper(c: char): (r: char)
    ensures !IsLower(r)
    ensures r == c || IsLower(c)
    ensures IsLower(c) ==> IsUpper(r)
    ensures IsLower(c) ==> r as int - 'A' as int == c as int - 'a' as int
  {
    if IsLower(c) then (c as int - 32) as char else c
  }

  /** Each letter's upper-case and lower-case forms map back to each other. */
  lemma CaseInverse(c: char)
    ensures IsUpper(c) ==> ToUpper(ToLower(c)) == c
    ensures IsLower(c) ==> ToLower(ToUpper(c)) == c
  {
  }

  /** Lower-casing forgets which case a letter was written in. */
  lemma FoldCase(c: char)
    ensures ToLower(ToUpper(c)) == ToLower(c)
    ensures ToLower(ToLower(c)) == ToLower(c)
  {
  }

  /** `String.prototype.toLowerCase`. */
  function LowerStr(s: string): (r: string)
    ensures |r| == |s|
    ensures forall i :: 0 <= i < |s| ==> r[i] == ToLower(s[i])
  {
    seq(|s|, i requires 0 <= i < |s| => ToLower(s[i]))
  }

  /** `t` is `s` with the case of any of its letters changed. */
  ghost predicate IsRecasing(t: string, s: string)
  {
    |t| == |s| &&
    forall i :: 0 <= i < |s| ==> t[i] == s[i] || t[i] == ToUpper(s[i]) || t[i] == ToLower(s[i])
  }

  /** Two spellings that differ only in letter case lower-case to the same string. */
  lemma RecasingLowersAlike(t: string, s: string)
    requires IsRecasing(t, s)
    ensures LowerStr(t) == LowerStr(s)
  {
    forall i | 0 <= i < |s|
      ensures LowerStr(t)[i] == LowerStr(s)[i]
    {
      FoldCase(s[i]);
    }
  }

  /** `s.charAt(0).toUpperCase() + s.slice(1)`; `charAt(0)` of "" is "". */
  function Capitalize(s: string): (r: string)
    ensures |r| == |s|
    ensures |s| > 0 ==> !IsLower(r[0]) && ToLower(r[0]) == ToLower(s[0])
    ensures |s| > 0 ==> r[1..] == s[1..]
    ensures IsRecasing(r, s)
  {
    if s == [] then [] else [ToUpper(s[0])] + s[1..]
  }

  predicate StartsWith(s: string, t: string)
  {
    |t| <= |s| && s[..|t|] == t
  }

  /** `String.prototype.includes`: `t` occurs somewhere in `s`. */
  predicate Contains(s: string, t: string)
    ensures Contains(s, t) ==> |t| <= |s|
    decreases |s|
  {
    StartsWith(s, t) || (|s| > 0 && Contains(s[1..], t))
  }

  /** `t` sits in `s` starting at offset `i`. */
  predicate OccursAt(s: string, t: string, i: int)
  {
    0 <= i <= |s| - |t| && s[i..i + |t|] == t
  }

  /** `includes` holds exactly when `t` sits at some offset of `s`. */
  lemma {:induction false} ContainsAt(s: string, t: string)
    ensures Contains(s, t) <==> exists i :: OccursAt(s, t, i)
    decreases |s|
  {
    if StartsWith(s, t) {
      assert OccursAt(s, t, 0);
    } else if |s| > 0 {
      ContainsAt(s[1..], t);
      if Contains(s[1..], t) {
        var i :| OccursAt(s[1..], t, i);
        assert s[i + 1..i + 1 + |t|] == s[1..][i..i + |t|];
        assert OccursAt(s, t, i + 1);
      }
      if exists i :: OccursAt(s, t, i) {
        var i :| OccursAt(s, t, i);
        assert i != 0;
        assert s[1..][i - 1..i - 1 + |t|] == s[i..i + |t|];
        assert OccursAt(s[1..], t, i - 1);
      }
    } else {
      assert forall i :: !OccursAt(s, t, i);
    }
  }

  /** Every string includes the empty string. */
  lemma ContainsEmpty(s: string)
    ensures Contains(s, "")
  {
    assert StartsWith(s, "");
  }
}
